/** Splitting text at a separator and joining it again. */
module Text {
  import opened Wrappers

  /** The first position of c in text at or after start, as std::string::find reports it. */
  function Find(text: string, c: char, start: nat): (r: Option<nat>)
    ensures r.Some? ==> start <= r.value < |text| && text[r.value] == c
    ensures forall k | start <= k < (if r.Some? then r.value else |text|) :: text[k] != c
    decreases |text| - start
  {
    if start >= |text| then None
    else if text[start] == c then Some(start)
    else Find(text, c, start + 1)
  }

  /** The pieces of text between separators; text without a separator is one piece. */
  function Split(text: string, sep: char): (parts: seq<string>)
    ensures |parts| > 0
    ensures forall p | p in parts :: sep !in p
    decreases |text|
  {
    match Find(text, sep, 0)
    case None => [text]
    case Some(i) => [text[..i]] + Split(text[i + 1..], sep)
  }

  function Join(parts: seq<string>, sep: char): string {
    if parts == [] then ""
    else if |parts| == 1 then parts[0]
    else parts[0] + [sep] + Join(parts[1..], sep)
  }

  lemma {:induction false} JoinSplit(text: string, sep: char)
    ensures Join(Split(text, sep), sep) == text
    decreases |text|
  {
    var found := Find(text, sep, 0);
    if found.Some? {
      var i := found.value;
      var rest := Split(text[i + 1..], sep);
      JoinSplit(text[i + 1..], sep);
      JoinCons(text[..i], rest, sep);
      assert text == text[..i] + [sep] + text[i + 1..];
    }
  }

  lemma JoinCons(head: string, rest: seq<string>, sep: char)
    requires rest != []
    ensures Join([head] + rest, sep) == head + [sep] + Join(rest, sep)
  {
    assert ([head] + rest)[1..] == rest;
  }

  lemma FindFirst(head: string, sep: char, tail: string)
    requires sep !in head
    ensures Find(head + [sep] + tail, sep, 0) == Some(|head|)
  {
    var text := head + [sep] + tail;
    assert text[|head|] == sep;
    assert forall k | 0 <= k < |head| :: text[k] == head[k];
  }

  /** Text up to the first separator is the first piece. */
  lemma SplitFirst(head: string, sep: char, tail: string)
    requires sep !in head
    ensures Split(head + [sep] + tail, sep) == [head] + Split(tail, sep)
  {
    var text := head + [sep] + tail;
    FindFirst(head, sep, tail);
    assert text[..|head|] == head && text[|head| + 1..] == tail;
  }

  lemma SplitWhole(text: string, sep: char)
    requires sep !in text
    ensures Split(text, sep) == [text]
  {}

  /** The same, of text from a position on. */
  lemma SplitAt(text: string, sep: char, start: nat, end: nat)
    requires start <= end < |text| && sep !in text[start..end] && text[end] == sep
    ensures Split(text[start..], sep) == [text[start..end]] + Split(text[end + 1..], sep)
  {
    SplitFirst(text[start..end], sep, text[end + 1..]);
    assert text[start..] == text[start..end] + [sep] + text[end + 1..];
  }

  lemma {:induction false} SplitJoin(parts: seq<string>, sep: char)
    requires parts != [] && forall p | p in parts :: sep !in p
    ensures Split(Join(parts, sep), sep) == parts
  {
    if |parts| == 1 {
      assert parts[0] in parts;
    } else {
      SplitFirst(parts[0], sep, Join(parts[1..], sep));
      SplitJoin(parts[1..], sep);
    }
  }
}
