/** The bounded pre-check of a JSON document, on the tokens that a streaming decoder delivers. */
module ManifestJson {
  import opened FileSystem
  import opened Paths
  import Sequences

  const MAXIMUM_VALUES := 32768
  const MAXIMUM_NESTING := 8
  const MAXIMUM_DATA := 16 * 1024 * 1024

  // ---------------------------------------------------------------- values and their tokens (RFC 8259 sections 2 to 5)

  /** What the decoder delivers; commas and colons are checked by the decoder itself. */
  datatype Token = Open(braces: bool) | Close(braces: bool) | Null | Boolean(value: bool) | Number(text: string)
                 | Text(text: string)

  predicate Plain(t: Token) { !t.Open? && !t.Close? }

  /** A JSON value; the entries of objects are named, those of arrays are not. */
  datatype Value = Scalar(token: Token) | Collection(braces: bool, entries: seq<Entry>)

  datatype Entry = Entry(name: Option<string>, value: Value)

  predicate Proper(v: Value)
    decreases v
  {
    match v
    case Scalar(token) => Plain(token)
    case Collection(braces, entries) => ProperAll(braces, entries)
  }

  predicate ProperAll(braces: bool, entries: seq<Entry>)
    decreases entries, 1
  {
    entries == [] || (ProperAll(braces, entries[..|entries| - 1]) && ProperEntry(braces, entries[|entries| - 1]))
  }

  predicate ProperEntry(braces: bool, e: Entry)
    decreases e
  {
    e.name.Some? == braces && Proper(e.value)
  }

  function Tokens(v: Value): (ts: seq<Token>)
    ensures ts != []
  {
    match v
    case Scalar(token) => [token]
    case Collection(braces, entries) => [Open(braces)] + TokensOfAll(entries) + [Close(braces)]
  }

  function TokensOfAll(entries: seq<Entry>): seq<Token> {
    if entries == [] then [] else TokensOfAll(entries[..|entries| - 1]) + TokensOfEntry(entries[|entries| - 1])
  }

  function TokensOfEntry(e: Entry): seq<Token> {
    (if e.name.Some? then [Text(e.name.value)] else []) + Tokens(e.value)
  }

  // ---------------------------------------------------------------- the grammar, read from left to right

  datatype Parse<T> = Failed | Parsed(value: T, rest: seq<Token>)

  function ParseValue(ts: seq<Token>): (p: Parse<Value>)
    ensures p.Parsed? ==> |p.rest| < |ts|
    decreases |ts|, 0
  {
    if ts == [] || ts[0].Close? then Failed
    else if Plain(ts[0]) then Parsed(Scalar(ts[0]), ts[1..])
    else
      var p := ParseEntries(ts[0].braces, ts[1..]);
      if p.Failed? then Failed else Parsed(Collection(ts[0].braces, p.value), p.rest)
  }

  function ParseEntry(braces: bool, ts: seq<Token>): (p: Parse<Entry>)
    ensures p.Parsed? ==> |p.rest| < |ts|
    decreases |ts|, 1
  {
    if !braces then
      var p := ParseValue(ts);
      if p.Failed? then Failed else Parsed(Entry(None, p.value), p.rest)
    else if ts == [] || !ts[0].Text? then Failed
    else
      var p := ParseValue(ts[1..]);
      if p.Failed? then Failed else Parsed(Entry(Some(ts[0].text), p.value), p.rest)
  }

  function ParseEntries(braces: bool, ts: seq<Token>): (p: Parse<seq<Entry>>)
    ensures p.Parsed? ==> |p.rest| < |ts|
    decreases |ts|, 2
  {
    if ts == [] then Failed
    else if ts[0].Close? then (if ts[0].braces == braces then Parsed([], ts[1..]) else Failed)
    else
      var first := ParseEntry(braces, ts);
      if first.Failed? then Failed else Prepend([first.value], ParseEntries(braces, first.rest))
  }

  function Prepend(entries: seq<Entry>, p: Parse<seq<Entry>>): (r: Parse<seq<Entry>>)
    ensures p.Failed? <==> r.Failed?
    ensures p.Parsed? ==> r.value == entries + p.value && r.rest == p.rest
  {
    if p.Failed? then Failed else Parsed(entries + p.value, p.rest)
  }

  lemma PrependTwice(a: seq<Entry>, b: seq<Entry>, p: Parse<seq<Entry>>)
    ensures Prepend(a, Prepend(b, p)) == Prepend(a + b, p)
  {
    if p.Parsed? { Sequences.Associate(a, b, p.value); }
  }

  lemma {:induction false} AllAppend(braces: bool, a: seq<Entry>, b: seq<Entry>)
    ensures ProperAll(braces, a + b) <==> ProperAll(braces, a) && ProperAll(braces, b)
    ensures TokensOfAll(a + b) == TokensOfAll(a) + TokensOfAll(b)
    decreases |b|
  {
    if b == [] {
      assert a + b == a;
    } else {
      AllAppend(braces, a, b[..|b| - 1]);
      assert (a + b)[..|a + b| - 1] == a + b[..|b| - 1];
      Sequences.Associate(TokensOfAll(a), TokensOfAll(b[..|b| - 1]), TokensOfEntry(b[|b| - 1]));
    }
  }

  lemma AllOne(braces: bool, e: Entry)
    ensures ProperAll(braces, [e]) <==> ProperEntry(braces, e)
    ensures TokensOfAll([e]) == TokensOfEntry(e)
  {
    assert [e][..0] == [];
  }

  /** Reading gives back what was printed, and leaves the rest. */
  lemma {:induction false} PrintedParses(v: Value, rest: seq<Token>)
    requires Proper(v)
    ensures ParseValue(Tokens(v) + rest) == Parsed(v, rest)
    decreases v, 0
  {
    match v
    case Scalar(token) =>
      assert (Tokens(v) + rest)[1..] == rest;
    case Collection(braces, entries) =>
      PrintedEntriesParse(braces, entries, [Close(braces)] + rest);
      assert (Tokens(v) + rest)[1..] == TokensOfAll(entries) + ([Close(braces)] + rest);
      assert ([Close(braces)] + rest)[1..] == rest;
      assert entries + [] == entries;
  }

  lemma {:induction false} PrintedEntryParses(braces: bool, e: Entry, rest: seq<Token>)
    requires ProperEntry(braces, e)
    ensures ParseEntry(braces, TokensOfEntry(e) + rest) == Parsed(e, rest)
    ensures !(TokensOfEntry(e) + rest)[0].Close?
    decreases e, 1
  {
    PrintedParses(e.value, rest);
    if braces {
      assert TokensOfEntry(e) + rest == [Text(e.name.value)] + (Tokens(e.value) + rest);
    } else {
      assert TokensOfEntry(e) == Tokens(e.value);
    }
  }

  /** Printed entries are read one after the other, whatever follows. */
  lemma {:induction false} PrintedEntriesParse(braces: bool, entries: seq<Entry>, rest: seq<Token>)
    requires ProperAll(braces, entries)
    ensures ParseEntries(braces, TokensOfAll(entries) + rest) == Prepend(entries, ParseEntries(braces, rest))
    decreases entries
  {
    if entries == [] {
      assert TokensOfAll(entries) + rest == rest;
      PrependNothing(ParseEntries(braces, rest));
    } else {
      var init, last := entries[..|entries| - 1], entries[|entries| - 1];
      var more := TokensOfEntry(last) + rest;
      PrintedEntriesParse(braces, init, more);
      PrintedEntryParses(braces, last, rest);
      Sequences.Associate(TokensOfAll(init), TokensOfEntry(last), rest);
      PrependTwice(init, [last], ParseEntries(braces, rest));
      Sequences.LastOf(entries);
    }
  }

  lemma PrependNothing(p: Parse<seq<Entry>>)
    ensures Prepend([], p) == p
  {
    if p.Parsed? { assert [] + p.value == p.value; }
  }

  /** Whatever is read is proper, and printing it gives back the tokens that were read. */
  lemma {:induction false} ParsedPrints(ts: seq<Token>)
    ensures var p := ParseValue(ts); p.Parsed? ==> Proper(p.value) && ts == Tokens(p.value) + p.rest
    decreases |ts|, 0
  {
    if ts != [] && ts[0].Open? && ParseValue(ts).Parsed? {
      var p := ParseEntries(ts[0].braces, ts[1..]);
      ParsedEntriesPrint(ts[0].braces, ts[1..]);
      Sequences.FirstOf(ts);
      Bracketed(ts[0].braces, TokensOfAll(p.value), p.rest);
    }
  }

  lemma Bracketed(braces: bool, inside: seq<Token>, rest: seq<Token>)
    ensures ([Open(braces)] + inside + [Close(braces)]) + rest == [Open(braces)] + (inside + ([Close(braces)] + rest))
  {
  }

  lemma {:induction false} ParsedEntryPrints(braces: bool, ts: seq<Token>)
    ensures var p := ParseEntry(braces, ts); p.Parsed? ==>
              ProperEntry(braces, p.value) && ts == TokensOfEntry(p.value) + p.rest
    decreases |ts|, 1
  {
    if !braces {
      ParsedPrints(ts);
    } else if ParseEntry(braces, ts).Parsed? {
      ParsedPrints(ts[1..]);
      var p := ParseValue(ts[1..]);
      assert ts == [ts[0]] + ts[1..];
      Sequences.Associate([ts[0]], Tokens(p.value), p.rest);
    }
  }

  lemma {:induction false} ParsedEntriesPrint(braces: bool, ts: seq<Token>)
    ensures var p := ParseEntries(braces, ts);
            p.Parsed? ==> ProperAll(braces, p.value) && ts == TokensOfAll(p.value) + ([Close(braces)] + p.rest)
    decreases |ts|, 2
  {
    if ts != [] && !ts[0].Close? {
      var first := ParseEntry(braces, ts);
      if first.Parsed? {
        ParsedEntryPrints(braces, ts);
        ParsedEntriesPrint(braces, first.rest);
        var more := ParseEntries(braces, first.rest);
        if more.Parsed? {
          AllOne(braces, first.value);
          AllAppend(braces, [first.value], more.value);
          Sequences.Associate(TokensOfEntry(first.value), TokensOfAll(more.value), [Close(braces)] + more.rest);
        }
      }
    } else if ts != [] {
      assert ts == [ts[0]] + ts[1..];
      assert TokensOfAll([]) + ([Close(braces)] + ts[1..]) == [Close(braces)] + ts[1..];
    }
  }

  /** The grammar is unambiguous: a token list has at most one reading. */
  lemma TokensInjective(v: Value, w: Value, a: seq<Token>, b: seq<Token>)
    requires Proper(v) && Proper(w) && Tokens(v) + a == Tokens(w) + b
    ensures v == w && a == b
  {
    PrintedParses(v, a);
    PrintedParses(w, b);
  }

  // ---------------------------------------------------------------- limits

  /** How many values there are; names are not counted. */
  function Values(v: Value): (n: nat)
    ensures n >= 1
  {
    match v
    case Scalar(_) => 1
    case Collection(_, entries) => 1 + ValuesOfAll(entries)
  }

  function ValuesOfAll(entries: seq<Entry>): nat {
    if entries == [] then 0 else ValuesOfAll(entries[..|entries| - 1]) + ValuesOfEntry(entries[|entries| - 1])
  }

  function ValuesOfEntry(e: Entry): nat { Values(e.value) }

  /** How deep collections are nested. */
  function Nesting(v: Value): nat {
    match v
    case Scalar(_) => 0
    case Collection(_, entries) => 1 + NestingOfAll(entries)
  }

  function NestingOfAll(entries: seq<Entry>): nat {
    if entries == [] then 0
    else
      var earlier, last := NestingOfAll(entries[..|entries| - 1]), NestingOfEntry(entries[|entries| - 1]);
      if earlier < last then last else earlier
  }

  function NestingOfEntry(e: Entry): nat { Nesting(e.value) }

  function Lower(c: char): char {
    if 'A' <= c <= 'Z' then (c as int + 32) as char else c
  }

  /** `strings.EqualFold(name, "data")`; no letter outside ASCII folds to one of these. */
  predicate IsData(name: string) {
    |name| == 4 && Lower(name[0]) == 'd' && Lower(name[1]) == 'a' && Lower(name[2]) == 't' && Lower(name[3]) == 'a'
  }

  predicate NamedData(e: Entry) { e.name.Some? && IsData(e.name.value) }

  /** Padded base64 or nothing. */
  predicate DataToken(t: Token) {
    t.Null? || (t.Text? && Utf8Length(t.text) % 4 == 0 && '\r' !in t.text && '\n' !in t.text)
  }

  predicate EndsWith(s: string, c: char) { s != "" && s[|s| - 1] == c }

  /** How many padding characters a text ends with, two at most. */
  function Padding(s: string): nat {
    if |s| >= 2 && EndsWith(s, '=') && EndsWith(s[..|s| - 1], '=') then 2
    else if EndsWith(s, '=') then 1 else 0
  }

  /** How many bytes padded base64 stands for (RFC 4648 section 4). */
  function DecodedBytes(encoded: string): int { Utf8Length(encoded) / 4 * 3 - Padding(encoded) }

  lemma DecodedBytesNatural(encoded: string)
    requires Utf8Length(encoded) % 4 == 0
    ensures DecodedBytes(encoded) >= 0
  {
    if encoded != "" { assert Utf8Length(encoded) >= 1; }
  }

  function DataSize(t: Token): nat {
    if t.Text? && Utf8Length(t.text) % 4 == 0 then
      DecodedBytesNatural(t.text);
      DecodedBytes(t.text)
    else 0
  }

  /** How many bytes the data fields stand for. */
  function DataBytes(v: Value): nat {
    match v
    case Scalar(_) => 0
    case Collection(_, entries) => DataBytesOfAll(entries)
  }

  function DataBytesOfAll(entries: seq<Entry>): nat {
    if entries == [] then 0 else DataBytesOfAll(entries[..|entries| - 1]) + DataBytesOfEntry(entries[|entries| - 1])
  }

  function DataBytesOfEntry(e: Entry): nat {
    (if NamedData(e) && e.value.Scalar? then DataSize(e.value.token) else 0) + DataBytes(e.value)
  }

  function MaximumEntries(braces: bool): nat { if braces then 32 else 4096 }

  /** Every collection is small enough, and every data field holds padded base64 or nothing. */
  predicate Shaped(v: Value) {
    match v
    case Scalar(_) => true
    case Collection(braces, entries) => |entries| <= MaximumEntries(braces) && ShapedAll(entries)
  }

  predicate ShapedAll(entries: seq<Entry>) {
    entries == [] || (ShapedAll(entries[..|entries| - 1]) && ShapedEntry(entries[|entries| - 1]))
  }

  predicate ShapedEntry(e: Entry) {
    (NamedData(e) ==> e.value.Scalar? && DataToken(e.value.token)) && Shaped(e.value)
  }

  /** All limits together, for a value at some depth and what is left of the budget. */
  ghost predicate Affordable(v: Value, depth: nat, values: nat, bytes: nat) {
    Shaped(v) && (v.Collection? ==> depth + Nesting(v) <= MAXIMUM_NESTING + 1) && Values(v) <= values
    && bytes + DataBytes(v) <= MAXIMUM_DATA
  }

  ghost predicate AffordableEntry(e: Entry, depth: nat, values: nat, bytes: nat) {
    ShapedEntry(e) && Affordable(e.value, depth, values, bytes) && bytes + DataBytesOfEntry(e) <= MAXIMUM_DATA
  }

  /** The same for the entries of one collection; `depth` is theirs. */
  ghost predicate AffordableAll(entries: seq<Entry>, depth: nat, values: nat, bytes: nat) {
    ShapedAll(entries) && NestingOfAll(entries) + depth <= MAXIMUM_NESTING + 1 && ValuesOfAll(entries) <= values
    && bytes + DataBytesOfAll(entries) <= MAXIMUM_DATA
  }

  lemma {:induction false} LimitsAppend(a: seq<Entry>, b: seq<Entry>)
    ensures ShapedAll(a + b) <==> ShapedAll(a) && ShapedAll(b)
    ensures NestingOfAll(a + b) == if NestingOfAll(a) < NestingOfAll(b) then NestingOfAll(b) else NestingOfAll(a)
    ensures ValuesOfAll(a + b) == ValuesOfAll(a) + ValuesOfAll(b)
    ensures DataBytesOfAll(a + b) == DataBytesOfAll(a) + DataBytesOfAll(b)
    decreases |b|
  {
    if b == [] {
      assert a + b == a;
    } else {
      LimitsAppend(a, b[..|b| - 1]);
      assert (a + b)[..|a + b| - 1] == a + b[..|b| - 1];
    }
  }

  lemma LimitsOfOne(e: Entry)
    ensures ShapedAll([e]) <==> ShapedEntry(e)
    ensures NestingOfAll([e]) == Nesting(e.value) && ValuesOfAll([e]) == Values(e.value)
            && DataBytesOfAll([e]) == DataBytesOfEntry(e)
  {
    assert [e][..0] == [];
  }

  // ---------------------------------------------------------------- the check

  /** A streaming decoder: the tokens still to come, and whether the text then ends or is in error. */
  class Decoder {
    var rest: seq<Token>
    const wellEnded: bool

    constructor (tokens: seq<Token>, wellEnded: bool)
      ensures rest == tokens && this.wellEnded == wellEnded
    {
      rest := tokens;
      this.wellEnded := wellEnded;
    }

    /** `Token`: the next token; none at the end or at an error. */
    method Next() returns (t: Option<Token>)
      modifies this
      ensures old(rest) == [] ==> t == None && rest == []
      ensures old(rest) != [] ==> t == Some(old(rest)[0]) && rest == old(rest)[1..]
    {
      if |rest| == 0 { return None; }
      t := Some(rest[0]);
      rest := rest[1..];
    }

    /** `More`: whether something other than a closing bracket follows; at an error it may say either. */
    method More() returns (more: bool)
      ensures rest != [] ==> more == !rest[0].Close?
    {
      if |rest| == 0 { more := *; } else { more := !rest[0].Close?; }
    }
  }

  class Budget {
    var remainingValues: nat
    var administrativeBytes: nat

    constructor ()
      ensures remainingValues == MAXIMUM_VALUES && administrativeBytes == 0
    {
      remainingValues := MAXIMUM_VALUES;
      administrativeBytes := 0;
    }
  }

  /** `checkAdministrativeDataSize` */
  method CheckAdministrativeDataSize(t: Token, budget: Budget) returns (ok: bool)
    requires budget.administrativeBytes <= MAXIMUM_DATA
    modifies budget
    ensures budget.remainingValues == old(budget.remainingValues)
    ensures ok <==> DataToken(t) && old(budget.administrativeBytes) + DataSize(t) <= MAXIMUM_DATA
    ensures budget.administrativeBytes == old(budget.administrativeBytes) + if ok then DataSize(t) else 0
  {
    if t.Null? { return true; }
    if !t.Text? || Utf8Length(t.text) % 4 != 0 || '\r' in t.text || '\n' in t.text { return false; }
    DecodedBytesNatural(t.text);
    var decoded := DecodedBytes(t.text);
    if decoded > MAXIMUM_DATA - budget.administrativeBytes { return false; }
    budget.administrativeBytes := budget.administrativeBytes + decoded;
    ok := true;
  }

  /** The outcome of reading a value from a list of tokens, when it is also within its limits. */
  ghost predicate Accepts(p: Parse<Value>, depth: nat, values: nat, bytes: nat) {
    p.Parsed? && Affordable(p.value, depth, values, bytes)
  }

  ghost predicate AcceptsEntry(p: Parse<Entry>, depth: nat, values: nat, bytes: nat) {
    p.Parsed? && AffordableEntry(p.value, depth, values, bytes)
  }

  ghost predicate AcceptsAll(p: Parse<seq<Entry>>, most: nat, depth: nat, values: nat, bytes: nat) {
    p.Parsed? && |p.value| <= most && AffordableAll(p.value, depth, values, bytes)
  }

  /** Reading some entries and then the others is the same as reading all, with what the first ones left of the
      budget. */
  lemma AcceptsAfter(done: seq<Entry>, p: Parse<seq<Entry>>, most: nat, depth: nat, values: nat, bytes: nat)
    requires |done| <= most && AffordableAll(done, depth, values, bytes)
    ensures AcceptsAll(Prepend(done, p), most, depth, values, bytes) <==>
            AcceptsAll(p, most - |done|, depth, values - ValuesOfAll(done), bytes + DataBytesOfAll(done))
  {
    if p.Parsed? { LimitsAppend(done, p.value); }
  }

  /** One entry decides for all that follow it. */
  lemma AcceptsNext(braces: bool, ts: seq<Token>, most: nat, depth: nat, values: nat, bytes: nat)
    requires ts != [] && !ts[0].Close?
    requires AcceptsAll(ParseEntries(braces, ts), most, depth, values, bytes)
    ensures most > 0 && AcceptsEntry(ParseEntry(braces, ts), depth, values, bytes)
  {
    var first := ParseEntry(braces, ts);
    var more := ParseEntries(braces, first.rest);
    LimitsOfOne(first.value);
    LimitsAppend([first.value], more.value);
  }

  lemma ReadOneMore(braces: bool, done: seq<Entry>, ts: seq<Token>)
    requires ts != [] && !ts[0].Close? && ParseEntry(braces, ts).Parsed?
    ensures var first := ParseEntry(braces, ts);
            Prepend(done, ParseEntries(braces, ts)) == Prepend(done + [first.value], ParseEntries(braces, first.rest))
  {
    var first := ParseEntry(braces, ts);
    PrependTwice(done, [first.value], ParseEntries(braces, first.rest));
  }

  lemma AffordOneMore(done: seq<Entry>, e: Entry, depth: nat, values: nat, bytes: nat)
    requires AffordableAll(done, depth, values, bytes)
    requires AffordableEntry(e, depth, values - ValuesOfAll(done), bytes + DataBytesOfAll(done))
    requires depth <= MAXIMUM_NESTING + 1
    ensures AffordableAll(done + [e], depth, values, bytes)
    ensures ValuesOfAll(done + [e]) == ValuesOfAll(done) + Values(e.value)
    ensures DataBytesOfAll(done + [e]) == DataBytesOfAll(done) + DataBytesOfEntry(e)
  {
    LimitsOfOne(e);
    LimitsAppend(done, [e]);
  }

  /** Some entries have been read, and what follows decides about all. */
  ghost predicate Underway(braces: bool, start: seq<Token>, done: seq<Entry>, rest: seq<Token>, depth: nat,
                           values: nat, bytes: nat,
                           leftValues: nat, leftBytes: nat) {
    && |rest| <= |start| && |done| <= MaximumEntries(braces)
    && ParseEntries(braces, start) == Prepend(done, ParseEntries(braces, rest))
    && AffordableAll(done, depth, values, bytes)
    && leftValues == values - ValuesOfAll(done) && leftBytes == bytes + DataBytesOfAll(done)
  }

  /** The collection as a whole is read and within its limits. */
  ghost predicate AcceptsCollection(braces: bool, start: seq<Token>, depth: nat, values: nat, bytes: nat) {
    AcceptsAll(ParseEntries(braces, start), MaximumEntries(braces), depth, values, bytes)
  }

  lemma EntryFails(braces: bool, start: seq<Token>, done: seq<Entry>, rest: seq<Token>, depth: nat, values: nat,
                   bytes: nat, leftValues: nat, leftBytes: nat)
    requires Underway(braces, start, done, rest, depth, values, bytes, leftValues, leftBytes)
    requires rest != [] ==> !rest[0].Close?
    requires |done| == MaximumEntries(braces) || !AcceptsEntry(ParseEntry(braces, rest), depth, leftValues, leftBytes)
    ensures !AcceptsCollection(braces, start, depth, values, bytes)
  {
    var most := MaximumEntries(braces) - |done|;
    AcceptsAfter(done, ParseEntries(braces, rest), MaximumEntries(braces), depth, values, bytes);
    if AcceptsAll(ParseEntries(braces, rest), most, depth, leftValues, leftBytes) {
      AcceptsNext(braces, rest, most, depth, leftValues, leftBytes);
    }
  }

  lemma EntryRead(braces: bool, start: seq<Token>, done: seq<Entry>, rest: seq<Token>, depth: nat, values: nat,
                  bytes: nat, leftValues: nat, leftBytes: nat)
    requires Underway(braces, start, done, rest, depth, values, bytes, leftValues, leftBytes)
             && depth <= MAXIMUM_NESTING + 1
    requires rest != [] && !rest[0].Close? && |done| < MaximumEntries(braces)
    requires AcceptsEntry(ParseEntry(braces, rest), depth, leftValues, leftBytes)
    ensures var p := ParseEntry(braces, rest);
            Underway(braces, start, done + [p.value], p.rest, depth, values, bytes, leftValues - Values(p.value.value),
                     leftBytes + DataBytesOfEntry(p.value))
  {
    ReadOneMore(braces, done, rest);
    AffordOneMore(done, ParseEntry(braces, rest).value, depth, values, bytes);
  }

  /** Where no entry follows, only the right closing bracket will do. */
  lemma EntriesEnd(braces: bool, start: seq<Token>, done: seq<Entry>, rest: seq<Token>, depth: nat, values: nat,
                   bytes: nat, leftValues: nat, leftBytes: nat)
    requires Underway(braces, start, done, rest, depth, values, bytes, leftValues, leftBytes)
    requires rest != [] ==> rest[0].Close?
    ensures ParseEntries(braces, start)
            == if rest != [] && rest[0] == Close(braces) then Parsed(done, rest[1..]) else Failed
  {
    assert done + [] == done;
  }

  /** What is spent on a value. */
  ghost predicate Spent(values: nat, bytes: nat, budget: Budget, moreValues: nat, moreBytes: nat)
    reads budget
  {
    budget.remainingValues == values - moreValues && budget.administrativeBytes == bytes + moreBytes
  }

  /** The part of the loop that reads a name, a value and what is in the value. */
  method CheckEntry(decoder: Decoder, braces: bool, depth: nat, budget: Budget) returns (ok: bool)
    requires budget.administrativeBytes <= MAXIMUM_DATA
    modifies decoder, budget
    ensures ok <==>
              AcceptsEntry(ParseEntry(braces, old(decoder.rest)), depth, old(budget.remainingValues),
                           old(budget.administrativeBytes))
    ensures ok ==>
      var p := ParseEntry(braces, old(decoder.rest));
      decoder.rest == p.rest && Spent(old(budget.remainingValues), old(budget.administrativeBytes), budget,
                                      Values(p.value.value), DataBytesOfEntry(p.value))
    decreases |decoder.rest|, 0
  {
    var dataField := false;
    if braces {
      var key := decoder.Next();
      if key.None? || !key.value.Text? { return false; }
      dataField := IsData(key.value.text);
    }
    ghost var from := decoder.rest;
    var value := decoder.Next();
    if value.None? { return false; }
    assert from == [value.value] + decoder.rest;
    if dataField {
      var sized := CheckAdministrativeDataSize(value.value, budget);
      if !sized { return false; }
    }
    ok := CheckJsonValue(decoder, value.value, depth, budget);
  }

  /** `checkJSONValue`, for a token that has been read. */
  method CheckJsonValue(decoder: Decoder, t: Token, depth: nat, budget: Budget) returns (ok: bool)
    requires budget.administrativeBytes <= MAXIMUM_DATA
    modifies decoder, budget
    ensures ok <==>
              Accepts(ParseValue([t] + old(decoder.rest)), depth, old(budget.remainingValues),
                      old(budget.administrativeBytes))
    ensures ok ==>
      var p := ParseValue([t] + old(decoder.rest));
      decoder.rest == p.rest && Spent(old(budget.remainingValues), old(budget.administrativeBytes), budget,
                                      Values(p.value), DataBytes(p.value))
    decreases |decoder.rest|, 2
  {
    assert ([t] + decoder.rest)[1..] == decoder.rest;
    if budget.remainingValues == 0 { return false; }
    budget.remainingValues := budget.remainingValues - 1;
    if !t.Open? && !t.Close? { return true; }
    if depth > MAXIMUM_NESTING { return false; }
    if t.Close? { return false; }
    ok := CheckEntries(decoder, t.braces, depth, budget);
  }

  /** The loop of `checkJSONValue` over the entries of a collection at this depth, and its closing bracket. */
  method CheckEntries(decoder: Decoder, braces: bool, depth: nat, budget: Budget) returns (ok: bool)
    requires budget.administrativeBytes <= MAXIMUM_DATA && depth <= MAXIMUM_NESTING
    modifies decoder, budget
    ensures ok <==>
              AcceptsCollection(braces, old(decoder.rest), depth + 1, old(budget.remainingValues),
                                old(budget.administrativeBytes))
    ensures ok ==>
      var p := ParseEntries(braces, old(decoder.rest));
      decoder.rest == p.rest && Spent(old(budget.remainingValues), old(budget.administrativeBytes), budget,
                                      ValuesOfAll(p.value), DataBytesOfAll(p.value))
    decreases |decoder.rest|, 1
  {
    ghost var start, values, bytes := decoder.rest, budget.remainingValues, budget.administrativeBytes;
    ghost var done: seq<Entry> := [];
    var maximum := MaximumEntries(braces);
    var entries := 0;
    PrependNothing(ParseEntries(braces, start));
    var more := decoder.More();
    while more
      invariant decoder.rest != [] ==> more == !decoder.rest[0].Close?
      invariant entries == |done|
      invariant Underway(braces, start, done, decoder.rest, depth + 1, values, bytes, budget.remainingValues,
                         budget.administrativeBytes)
      decreases |decoder.rest|
    {
      ghost var from, leftValues, leftBytes := decoder.rest, budget.remainingValues, budget.administrativeBytes;
      if entries >= maximum {
        EntryFails(braces, start, done, from, depth + 1, values, bytes, leftValues, leftBytes);
        return false;
      }
      entries := entries + 1;
      ok := CheckEntry(decoder, braces, depth + 1, budget);
      if !ok {
        EntryFails(braces, start, done, from, depth + 1, values, bytes, leftValues, leftBytes);
        return;
      }
      EntryRead(braces, start, done, from, depth + 1, values, bytes, leftValues, leftBytes);
      done := done + [ParseEntry(braces, from).value];
      more := decoder.More();
    }
    EntriesEnd(braces, start, done, decoder.rest, depth + 1, values, bytes, budget.remainingValues,
               budget.administrativeBytes);
    var last := decoder.Next();
    ok := last == Some(Close(braces));
  }

  // ---------------------------------------------------------------- whole documents

  ghost predicate WithinLimits(v: Value) {
    Shaped(v) && Nesting(v) <= MAXIMUM_NESTING && Values(v) <= MAXIMUM_VALUES && DataBytes(v) <= MAXIMUM_DATA
  }

  /** The tokens are those of this object, which is within all limits. */
  ghost predicate IsDocument(v: Value, tokens: seq<Token>) {
    Proper(v) && v.Collection? && v.braces && Tokens(v) == tokens && WithinLimits(v)
  }

  lemma ReadAsDocument(tokens: seq<Token>, v: Value)
    requires tokens != [] && tokens[0] == Open(true)
    ensures IsDocument(v, tokens) <==> ParseValue(tokens) == Parsed(v, []) && Affordable(v, 1, MAXIMUM_VALUES, 0)
  {
    if Proper(v) && Tokens(v) == tokens {
      PrintedParses(v, []);
      assert tokens + [] == tokens;
    }
    ParsedPrints(tokens);
    assert Tokens(v) + [] == Tokens(v);
  }

  /** `checkManifestJSON`: exactly the documents that are one object within all limits. */
  method CheckManifestJson(decoder: Decoder) returns (ok: bool)
    modifies decoder
    ensures ok <==> decoder.wellEnded && exists v :: IsDocument(v, old(decoder.rest))
  {
    ghost var tokens := decoder.rest;
    var first := decoder.Next();
    if first != Some(Open(true)) {
      forall v ensures !IsDocument(v, tokens) { FirstToken(v, tokens); }
      return false;
    }
    assert [first.value] + decoder.rest == tokens;
    var budget := new Budget();
    ok := CheckJsonValue(decoder, first.value, 1, budget);
    ghost var p := ParseValue(tokens);
    forall v ensures IsDocument(v, tokens) <==> p == Parsed(v, []) && Affordable(v, 1, MAXIMUM_VALUES, 0) {
      ReadAsDocument(tokens, v);
    }
    if !ok { return; }
    var after := decoder.Next();
    ok := after == None && decoder.wellEnded;
    if ok { assert IsDocument(p.value, tokens); }
  }

  lemma FirstToken(v: Value, tokens: seq<Token>)
    ensures IsDocument(v, tokens) ==> tokens != [] && tokens[0] == Open(true)
  {
  }
}
