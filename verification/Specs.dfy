/** The --file option: comma-separated "peer:room:path" entries (src/WebRTCClient.cpp). */
module Specs {
  import opened Wrappers
  import opened Text

  datatype FileSpec = FileSpec(peer: string, room: string, path: string)

  function Print(spec: FileSpec): string {
    spec.peer + ":" + spec.room + ":" + spec.path
  }

  /** What an entry can say: only the first two colons separate, so a path may contain more. */
  ghost predicate Expressible(spec: FileSpec) {
    && spec.peer != "" && spec.room != "" && spec.path != ""
    && ':' !in spec.peer && ':' !in spec.room
  }

  ghost predicate Listable(spec: FileSpec) {
    Expressible(spec) && ',' !in Print(spec)
  }

  function ParseEntry(entry: string): Option<FileSpec> {
    var first := Find(entry, ':', 0);
    if first.None? then None else
    var second := Find(entry, ':', first.value + 1);
    if second.None? then None else
    var spec := FileSpec(entry[..first.value], entry[first.value + 1..second.value], entry[second.value + 1..]);
    if spec.peer == "" || spec.room == "" || spec.path == "" then None else Some(spec)
  }

  /** The entries that are not empty, in order. */
  function NonEmpty(entries: seq<string>): seq<string> {
    if entries == [] then []
    else (if entries[0] == "" then [] else [entries[0]]) + NonEmpty(entries[1..])
  }

  function ParseEntries(entries: seq<string>): Option<seq<FileSpec>> {
    if entries == [] then Some([]) else
    match ParseEntry(entries[0])
    case None => None
    case Some(spec) =>
      match ParseEntries(entries[1..])
      case None => None
      case Some(rest) => Some([spec] + rest)
  }

  function Parse(text: string): Option<seq<FileSpec>> {
    ParseEntries(NonEmpty(Split(text, ',')))
  }

  function Printed(specs: seq<FileSpec>): (r: seq<string>)
    ensures |r| == |specs| && forall i | 0 <= i < |specs| :: r[i] == Print(specs[i])
  {
    seq(|specs|, i requires 0 <= i < |specs| => Print(specs[i]))
  }

  // ---- One entry ----

  lemma EntryPrints(entry: string)
    ensures ParseEntry(entry).Some? ==> Expressible(ParseEntry(entry).value) && Print(ParseEntry(entry).value) == entry
  {
    var first := Find(entry, ':', 0);
    if first.Some? {
      var second := Find(entry, ':', first.value + 1);
      if second.Some? {
        var i, j := first.value, second.value;
        assert entry[0..i] == entry[..i];
        assert entry == entry[..i] + ":" + entry[i + 1..j] + ":" + entry[j + 1..];
      }
    }
  }

  lemma PrintedParses(spec: FileSpec)
    requires Expressible(spec)
    ensures ParseEntry(Print(spec)) == Some(spec)
  {
    var entry := Print(spec);
    var i := |spec.peer|;
    var j := i + 1 + |spec.room|;
    assert entry == spec.peer + [':'] + (spec.room + ":" + spec.path);
    FindFirst(spec.peer, ':', spec.room + ":" + spec.path);
    FindSecond(entry, i + 1, j);
    assert entry[..i] == spec.peer && entry[i + 1..j] == spec.room && entry[j + 1..] == spec.path;
  }

  lemma FindSecond(entry: string, start: nat, j: nat)
    requires start <= j < |entry| && entry[j] == ':' && ':' !in entry[start..j]
    ensures Find(entry, ':', start) == Some(j)
  {
    assert forall k | start <= k < j :: entry[k] == entry[start..j][k - start];
  }

  // ---- Whole lists ----

  lemma {:induction false} NonEmptyKeeps(entries: seq<string>)
    requires "" !in entries
    ensures NonEmpty(entries) == entries
  {
    if entries != [] {
      assert entries[0] in entries;
      NonEmptyKeeps(entries[1..]);
    }
  }

  lemma {:induction false} NonEmptyConcat(a: seq<string>, b: seq<string>)
    ensures NonEmpty(a + b) == NonEmpty(a) + NonEmpty(b)
  {
    if a == [] {
      assert a + b == b;
    } else {
      assert (a + b)[1..] == a[1..] + b;
      NonEmptyConcat(a[1..], b);
    }
  }

  lemma {:induction false} NonEmptyEntries(entries: seq<string>, sep: char)
    requires forall e | e in entries :: sep !in e
    ensures forall e | e in NonEmpty(entries) :: e != "" && sep !in e
  {
    if entries != [] {
      NonEmptyEntries(entries[1..], sep);
    }
  }

  lemma {:induction false} ParseConcat(a: seq<string>, b: seq<string>)
    ensures ParseEntries(a + b) ==
            if ParseEntries(a).Some? && ParseEntries(b).Some?
            then Some(ParseEntries(a).value + ParseEntries(b).value) else None
  {
    if a == [] {
      assert a + b == b;
      assert ParseEntries(b).Some? ==> [] + ParseEntries(b).value == ParseEntries(b).value;
    } else {
      assert (a + b)[1..] == a[1..] + b;
      ParseConcat(a[1..], b);
      if ParseEntries(a).Some? && ParseEntries(b).Some? {
        var first, rest, tail := ParseEntry(a[0]).value, ParseEntries(a[1..]).value, ParseEntries(b).value;
        assert [first] + (rest + tail) == ([first] + rest) + tail;
      }
    }
  }

  lemma {:induction false} ParseAllPrinted(specs: seq<FileSpec>)
    requires forall s | s in specs :: Expressible(s)
    ensures ParseEntries(Printed(specs)) == Some(specs)
  {
    if specs != [] {
      PrintedParses(specs[0]);
      ParseAllPrinted(specs[1..]);
      assert Printed(specs)[1..] == Printed(specs[1..]);
      assert specs == [specs[0]] + specs[1..];
    }
  }

  /** Every list of well-formed specs survives being written as option text and parsed back. */
  lemma RoundTrip(specs: seq<FileSpec>)
    requires forall s | s in specs :: Listable(s)
    ensures Parse(Join(Printed(specs), ',')) == Some(specs)
  {
    if specs == [] {
      assert Split("", ',') == [""];
      assert NonEmpty([""]) == [] + NonEmpty([]);
    } else {
      forall p | p in Printed(specs) ensures p != "" && ',' !in p {
        var i :| 0 <= i < |specs| && Printed(specs)[i] == p;
        assert specs[i] in specs;
      }
      SplitJoin(Printed(specs), ',');
      NonEmptyKeeps(Printed(specs));
      ParseAllPrinted(specs);
    }
  }

  lemma {:induction false} ParsedPrints(entries: seq<string>)
    requires forall e | e in entries :: ',' !in e
    requires ParseEntries(entries).Some?
    ensures Printed(ParseEntries(entries).value) == entries
    ensures forall s | s in ParseEntries(entries).value :: Listable(s)
  {
    if entries != [] {
      EntryPrints(entries[0]);
      ParsedPrints(entries[1..]);
    }
  }

  /** What parsed prints back as the text without its empty entries, and every parsed spec can be written. */
  lemma {:induction false} ParseReadsTheText(text: string)
    requires Parse(text).Some?
    ensures Join(Printed(Parse(text).value), ',') == Join(NonEmpty(Split(text, ',')), ',')
    ensures forall s | s in Parse(text).value :: Listable(s)
  {
    NonEmptyEntries(Split(text, ','), ',');
    ParsedPrints(NonEmpty(Split(text, ',')));
  }

  /** Text is refused exactly when one of its non-empty entries is no spec at all. */
  lemma {:induction false} RefusedExactly(entries: seq<string>)
    ensures ParseEntries(entries).None? <==>
            exists i | 0 <= i < |entries| :: forall s | Expressible(s) :: Print(s) != entries[i]
  {
    if entries != [] {
      var rest := entries[1..];
      RefusedExactly(rest);
      if ParseEntry(entries[0]).Some? {
        EntryPrints(entries[0]);
        var spec := ParseEntry(entries[0]).value;
        if i :| 0 <= i < |entries| && forall s | Expressible(s) :: Print(s) != entries[i] {
          assert i != 0 && rest[i - 1] == entries[i];
        }
        if i :| 0 <= i < |rest| && forall s | Expressible(s) :: Print(s) != rest[i] {
          assert entries[i + 1] == rest[i];
        }
      } else {
        forall s | Expressible(s) ensures Print(s) != entries[0] {
          PrintedParses(s);
        }
      }
    }
  }

  // ---- The loop ----

  function EntryEnd(text: string, start: nat): (end: nat)
    requires start <= |text|
    ensures start <= end <= |text|
  {
    var found := Find(text, ',', start);
    if found.None? then |text| else found.value
  }

  /** The entries of text from position start on; a position past the end means the last one was read. */
  ghost function EntriesFrom(text: string, start: nat): seq<string> {
    if start <= |text| then Split(text[start..], ',') else []
  }

  /** An entry ends at the first separator, or with the text. */
  lemma EntryHasNoComma(text: string, start: nat)
    requires start <= |text|
    ensures var end := EntryEnd(text, start); ',' !in text[start..end] && (end < |text| ==> text[end] == ',')
  {
    var end := EntryEnd(text, start);
    assert forall k | 0 <= k < end - start :: text[start..end][k] == text[start + k] != ',';
  }

  lemma SplitStep(text: string, start: nat)
    requires start <= |text|
    ensures var end := EntryEnd(text, start);
            EntriesFrom(text, start) == [text[start..end]] + EntriesFrom(text, end + 1)
  {
    var end := EntryEnd(text, start);
    EntryHasNoComma(text, start);
    if end < |text| {
      SplitAt(text, ',', start, end);
    } else {
      assert text[start..] == text[start..end];
      SplitWhole(text[start..end], ',');
    }
  }

  /** What reading one more entry does to the specs read so far. */
  lemma ReadEntry(done: seq<string>, entry: string, rest: seq<string>, specs: seq<FileSpec>)
    requires ParseEntries(NonEmpty(done)) == Some(specs)
    ensures entry == "" ==> ParseEntries(NonEmpty(done + [entry])) == Some(specs)
    ensures entry != "" ==> match ParseEntry(entry)
              case Some(spec) => ParseEntries(NonEmpty(done + [entry])) == Some(specs + [spec])
              case None => ParseEntries(NonEmpty(done + [entry] + rest)).None?
  {
    NonEmptyConcat(done, [entry]);
    NonEmptyConcat(done + [entry], rest);
    if entry == "" {
      assert NonEmpty(done) + [] == NonEmpty(done);
    } else {
      assert NonEmpty([entry]) == [entry];
      ParseConcat(NonEmpty(done), [entry]);
      ParseConcat(NonEmpty(done + [entry]), NonEmpty(rest));
      assert [entry][1..] == [];
      assert ParseEntry(entry).Some? ==> ParseEntries([entry]).value == [ParseEntry(entry).value];
    }
  }

  /** The loop's state: entries `done` were read into `specs`, the rest of the text starts at `start`. */
  ghost predicate Reading(text: string, start: nat, done: seq<string>, specs: seq<FileSpec>) {
    && Split(text, ',') == done + EntriesFrom(text, start)
    && ParseEntries(NonEmpty(done)) == Some(specs)
  }

  lemma ReadText(text: string, start: nat, done: seq<string>)
    requires start <= |text| && Split(text, ',') == done + EntriesFrom(text, start)
    ensures var end := EntryEnd(text, start);
            Split(text, ',') == done + [text[start..end]] + EntriesFrom(text, end + 1)
  {
    SplitStep(text, start);
    var end := EntryEnd(text, start);
    Assoc(done, [text[start..end]], EntriesFrom(text, end + 1));
  }

  lemma ReadNext(text: string, start: nat, done: seq<string>, specs: seq<FileSpec>)
    requires start <= |text| && Reading(text, start, done, specs)
    ensures var end := EntryEnd(text, start);
            var entry := text[start..end];
            if entry == "" then Reading(text, end + 1, done + [entry], specs)
            else match ParseEntry(entry)
              case Some(spec) => Reading(text, end + 1, done + [entry], specs + [spec])
              case None => Parse(text).None?
  {
    var end := EntryEnd(text, start);
    ReadText(text, start, done);
    ReadEntry(done, text[start..end], EntriesFrom(text, end + 1), specs);
  }

  method ParseFileSpecs(text: string) returns (ok: bool, specs: seq<FileSpec>)
    ensures ok <==> Parse(text).Some?
    ensures ok ==> specs == Parse(text).value
  {
    specs := [];
    var start: nat := 0;
    ghost var done: seq<string> := [];
    assert text[0..] == text;
    while start <= |text|
      invariant Reading(text, start, done, specs)
      decreases |text| + 1 - start
    {
      ReadNext(text, start, done, specs);
      var end := EntryEnd(text, start);
      var entry := text[start..end];
      start := end + 1;
      done := done + [entry];
      if entry == "" {
        continue;
      }
      var spec := ParseEntry(entry);
      if spec.None? {
        return false, specs;
      }
      specs := specs + [spec.value];
    }
    ok := true;
    assert done + [] == done;
  }
}
