/**
 * Lexical path arithmetic of the sender and the receiver (src/WebRTCClient.cpp), after the normal form of
 * [fs.path.generic] in ISO C++20 on POSIX paths.
 */
module Paths {
  import opened Wrappers
  import opened Text

  /** A path as its iterators show it: an optional root, then names; an empty last name is a trailing slash. */
  datatype Path = Path(root: bool, names: seq<string>)

  ghost predicate WellFormed(p: Path) {
    forall i | 0 <= i < |p.names| :: '/' !in p.names[i] && (p.names[i] == "" ==> 0 < i == |p.names| - 1)
  }

  /** A name that stands for itself. */
  predicate Proper(name: string) {
    name != "" && name != "." && name != ".." && '/' !in name
  }

  ghost predicate AllProper(names: seq<string>) {
    forall i | 0 <= i < |names| :: Proper(names[i])
  }

  // ---- Text and iteration ----

  function Solid(parts: seq<string>): (r: seq<string>)
    ensures "" !in r && (forall p | p in r :: p in parts)
  {
    if parts == [] then [] else (if parts[0] == "" then [] else [parts[0]]) + Solid(parts[1..])
  }

  function Parse(text: string): Path {
    var parts := Split(text, '/');
    var names := Solid(parts);
    Path(text != "" && text[0] == '/', if names != [] && parts[|parts| - 1] == "" then names + [""] else names)
  }

  function ToText(p: Path): string {
    (if p.root then "/" else "") + Join(p.names, '/')
  }

  function Elements(p: Path): seq<string> {
    (if p.root then ["/"] else []) + p.names
  }

  /** The names without the mark of a trailing slash. */
  function Base(names: seq<string>): (r: seq<string>)
    ensures r <= names
  {
    if names != [] && names[|names| - 1] == "" then names[..|names| - 1] else names
  }

  // ---- The library operations the program calls ----

  function RelativePath(p: Path): Path {
    Path(false, p.names)
  }

  /** operator/ : an absolute right side replaces the left. */
  function Append(p: Path, q: Path): Path {
    if q.root then q
    else if p.names == [] then Path(p.root, q.names)
    else Path(p.root, Base(p.names) + if q.names == [] then [""] else q.names)
  }

  function Absolute(cwd: Path, p: Path): Path {
    if p.root then p else Append(cwd, p)
  }

  /** Reads names onto the normal form so far; the flag says that a directory separator would come next. */
  function Walk(root: bool, stack: seq<string>, dir: bool, rest: seq<string>): (seq<string>, bool)
    decreases rest
  {
    if rest == [] then (stack, dir) else
    var name := rest[0];
    if name == "" || name == "." then Walk(root, stack, true, rest[1..])
    else if name != ".." then Walk(root, stack + [name], false, rest[1..])
    else if stack != [] && stack[|stack| - 1] != ".." then Walk(root, stack[..|stack| - 1], true, rest[1..])
    else if root then Walk(root, stack, true, rest[1..])
    else Walk(root, stack + [name], false, rest[1..])
  }

  function Normal(p: Path): Path {
    if !p.root && p.names == [] then p else
    var (stack, dir) := Walk(p.root, [], false, p.names);
    if stack == [] then Path(p.root, if p.root then [] else ["."])
    else if dir && stack[|stack| - 1] != ".." then Path(p.root, stack + [""])
    else Path(p.root, stack)
  }

  function CommonLength(a: seq<string>, b: seq<string>): (n: nat)
    ensures n <= |a| && n <= |b| && a[..n] == b[..n]
    ensures n < |a| && n < |b| ==> a[n] != b[n]
  {
    if a == [] || b == [] || a[0] != b[0] then 0
    else
      var n := CommonLength(a[1..], b[1..]);
      assert a[..n + 1] == [a[0]] + a[1..][..n] && b[..n + 1] == [b[0]] + b[1..][..n];
      n + 1
  }

  /** How far down the names lead, counting ".." as one step back. */
  function Depth(names: seq<string>): int {
    if names == [] then 0
    else (if names[0] == ".." then -1 else if names[0] == "" || names[0] == "." then 0 else 1) + Depth(names[1..])
  }

  function Ups(n: nat): (r: seq<string>)
    ensures |r| == n && forall i | 0 <= i < n :: r[i] == ".."
  {
    seq(n, _ => "..")
  }

  /** Up out of what only the base has, then down what only the path has. */
  function UpAndDown(down: seq<string>, up: seq<string>): Path {
    var n := Depth(up);
    if down == [] && up == [] then Path(false, ["."])
    else if n == 0 && (down == [] || down[0] == "") then Path(false, ["."])
    else if n >= 0 then Path(false, Ups(n) + down)
    else Path(false, [])
  }

  /** lexically_relative */
  function Relative(p: Path, base: Path): Path {
    if p.root != base.root then Path(false, []) else
    var a, b := Elements(p), Elements(base);
    var m := CommonLength(a, b);
    UpAndDown(a[m..], b[m..])
  }

  // ---- What the two sides do with them ----

  /** The name under which a file is offered. */
  function OfferedName(cwd: Path, directory: string, file: string): string {
    var absolute := Normal(Absolute(cwd, Parse(file)));
    if directory == "" then ToText(absolute)
    else ToText(Relative(absolute, Normal(Absolute(cwd, Parse(directory)))))
  }

  function ReceivedName(name: string): Path {
    Normal(RelativePath(Parse(name)))
  }

  function ReceiveDirectory(directory: string): Path {
    Parse(if directory == "" then "." else directory)
  }

  /** Where an offered name is written, or nothing when it escapes the receive directory. */
  function Destination(directory: string, name: string): Option<Path> {
    var received := ReceivedName(name);
    if received.names == [] || received.names[0] == ".." then None
    else Some(Append(ReceiveDirectory(directory), received))
  }

  // ---- Text round trip ----

  lemma {:induction false} SolidOf(names: seq<string>)
    requires forall i | 0 <= i < |names| :: names[i] == "" ==> i == |names| - 1
    ensures Solid(names) == Base(names)
  {
    if names != [] {
      SolidOf(names[1..]);
      assert names == [names[0]] + names[1..];
    }
  }

  lemma SolidConcat(a: string, rest: seq<string>)
    ensures Solid([a] + rest) == (if a == "" then [] else [a]) + Solid(rest)
  {
    assert ([a] + rest)[1..] == rest;
  }

  lemma JoinHead(names: seq<string>)
    requires names != []
    ensures Join(names, '/') != "" && Join(names, '/')[0] == '/' ==> names[0] == "" || names[0][0] == '/'
    ensures Join(names, '/') == "" ==> |names| == 1 && names[0] == ""
  {}

  lemma BareText(root: bool)
    ensures Parse(ToText(Path(root, []))) == Path(root, [])
  {
    if root {
      SplitJoin(["", ""], '/');
      assert Join([""], '/') == "" && Join(["", ""], '/') == "" + ['/'] + "" == "/";
      assert Solid(["", ""]) == [];
    } else {
      assert Split("", '/') == [""] && Solid([""]) == [];
    }
  }

  lemma PartsOfText(p: Path)
    requires WellFormed(p) && p.names != []
    ensures var parts := if p.root then [""] + p.names else p.names;
            ToText(p) == Join(parts, '/') && Split(ToText(p), '/') == parts
  {
    var parts := if p.root then [""] + p.names else p.names;
    if p.root {
      JoinCons("", p.names, '/');
      assert "" + ['/'] + Join(p.names, '/') == "/" + Join(p.names, '/');
    } else {
      assert "" + Join(p.names, '/') == Join(p.names, '/');
    }
    SplitJoin(parts, '/');
  }

  lemma RootedText(names: seq<string>)
    requires WellFormed(Path(true, names)) && names != []
    ensures Parse(ToText(Path(true, names))) == Path(true, names)
  {
    PartsOfText(Path(true, names));
    SolidOf(names);
    SolidConcat("", names);
  }

  lemma RelativeText(names: seq<string>)
    requires WellFormed(Path(false, names)) && names != []
    ensures Parse(ToText(Path(false, names))) == Path(false, names)
  {
    PartsOfText(Path(false, names));
    SolidOf(names);
    JoinHead(names);
    assert names[0][0] in names[0];
    assert "" + Join(names, '/') == Join(names, '/');
  }

  lemma TextRoundTrip(p: Path)
    requires WellFormed(p)
    ensures Parse(ToText(p)) == p
  {
    if p.names == [] {
      BareText(p.root);
    } else if p.root {
      RootedText(p.names);
    } else {
      RelativeText(p.names);
    }
  }

  lemma {:induction false} SolidNames(parts: seq<string>)
    requires forall q | q in parts :: '/' !in q
    ensures forall i | 0 <= i < |Solid(parts)| :: Solid(parts)[i] != "" && '/' !in Solid(parts)[i]
  {
    var r := Solid(parts);
    forall i | 0 <= i < |r| ensures r[i] != "" && '/' !in r[i] {
      assert r[i] in r;
    }
  }

  lemma ParseWellFormed(text: string)
    ensures WellFormed(Parse(text))
  {
    SolidNames(Split(text, '/'));
  }

  // ---- The normal form ----

  /** Names of a normal form: no empty or single-dot name, and ".." only in front of a relative path. */
  ghost predicate NormalNames(root: bool, names: seq<string>) {
    && (forall i | 0 <= i < |names| :: names[i] != "" && names[i] != "." && '/' !in names[i])
    && (forall i | 0 <= i < |names| && names[i] == ".." :: !root && forall j | 0 <= j < i :: names[j] == "..")
  }

  lemma {:induction false} WalkNormal(root: bool, stack: seq<string>, dir: bool, rest: seq<string>)
    requires NormalNames(root, stack) && forall i | 0 <= i < |rest| :: '/' !in rest[i]
    ensures NormalNames(root, Walk(root, stack, dir, rest).0)
    decreases rest
  {
    if rest != [] {
      var name := rest[0];
      if name == "" || name == "." {
        WalkNormal(root, stack, true, rest[1..]);
      } else if name != ".." {
        WalkNormal(root, stack + [name], false, rest[1..]);
      } else if stack != [] && stack[|stack| - 1] != ".." {
        WalkNormal(root, stack[..|stack| - 1], true, rest[1..]);
      } else if root {
        WalkNormal(root, stack, true, rest[1..]);
      } else {
        WalkNormal(root, stack + [name], false, rest[1..]);
      }
    }
  }

  /** Every normal form is an empty or single-dot path, or normal names with at most a trailing slash. */
  lemma NormalForm(p: Path)
    requires WellFormed(p)
    ensures WellFormed(Normal(p)) && Normal(p).root == p.root
    ensures Normal(p).names == ["."] || NormalNames(p.root, Base(Normal(p).names))
    ensures Normal(p).names == [] <==> p.names == [] || (p.root && Walk(true, [], false, p.names).0 == [])
    ensures p.root ==> NormalNames(true, Base(Normal(p).names))
  {
    WalkNormal(p.root, [], false, p.names);
    var (stack, dir) := Walk(p.root, [], false, p.names);
    assert stack != [] ==> Base(stack) == stack && Base(stack + [""]) == stack;
  }

  lemma {:induction false} WalkProper(root: bool, stack: seq<string>, dir: bool, rest: seq<string>, tail: seq<string>)
    requires AllProper(rest)
    ensures Walk(root, stack, dir, rest + tail) == Walk(root, stack + rest, if rest == [] then dir else false, tail)
    decreases rest
  {
    if rest == [] {
      assert rest + tail == tail && stack + rest == stack;
    } else {
      assert (rest + tail)[1..] == rest[1..] + tail;
      WalkProper(root, stack + [rest[0]], false, rest[1..], tail);
      assert stack + [rest[0]] + rest[1..] == stack + rest;
    }
  }

  // ---- Confinement ----

  /** Where a walk over directory names ends, by names alone; ".." leads back. */
  function Position(at: seq<string>, names: seq<string>): seq<string>
    decreases names
  {
    if names == [] then at
    else if names[0] == "" || names[0] == "." then Position(at, names[1..])
    else if names[0] == ".." then Position(if at == [] then [] else at[..|at| - 1], names[1..])
    else Position(at + [names[0]], names[1..])
  }

  lemma {:induction false} PositionConcat(at: seq<string>, a: seq<string>, b: seq<string>)
    ensures Position(at, a + b) == Position(Position(at, a), b)
    decreases a
  {
    if a == [] {
      assert a + b == b;
    } else {
      assert (a + b)[1..] == a[1..] + b;
      var next := if a[0] == "" || a[0] == "." then at
                  else if a[0] == ".." then (if at == [] then [] else at[..|at| - 1])
                  else at + [a[0]];
      PositionConcat(next, a[1..], b);
    }
  }

  lemma {:induction false} StaysBeneath(at: seq<string>, names: seq<string>)
    requires ".." !in names
    ensures at <= Position(at, names)
    ensures Position(at, names) != at <==> exists i :: 0 <= i < |names| && names[i] != "" && names[i] != "."
    decreases names
  {
    if names != [] {
      var here := names[0] == "" || names[0] == ".";
      StaysBeneath(if here then at else at + [names[0]], names[1..]);
      assert forall i | 1 <= i < |names| :: names[i] == names[1..][i - 1];
      if here && Position(at, names) != at {
        var i :| 0 <= i < |names[1..]| && names[1..][i] != "" && names[1..][i] != ".";
        assert names[i + 1] != "" && names[i + 1] != ".";
      }
    }
  }

  /**
   * An offered name is either refused or its destination is the receive directory followed by names without
   * "..": whatever directory the walk starts in, it never leaves the receive directory again, and it ends
   * strictly beneath it unless the name says no more than ".".
   */
  lemma {:induction false} DestinationConfined(directory: string, name: string, start: seq<string>, k: nat)
    requires Destination(directory, name).Some?
    requires k <= |ReceivedName(name).names|
    ensures var dir, received := ReceiveDirectory(directory), ReceivedName(name).names;
            var inside := Position(start, dir.names);
            && Destination(directory, name) == Some(Path(dir.root, Base(dir.names) + received))
            && ".." !in received
            && inside <= Position(start, Base(dir.names) + received[..k])
            && (Position(start, Base(dir.names) + received) == inside <==> received == ["."])
  {
    var dir, received := ReceiveDirectory(directory), ReceivedName(name).names;
    ReceivedClean(name);
    var base := Base(dir.names);
    assert dir.names == [] ==> base + received == received;
    PositionOfBase(start, dir.names);
    PositionConcat(start, base, received[..k]);
    PositionConcat(start, base, received);
    var inside := Position(start, dir.names);
    assert ".." !in received[..k];
    StaysBeneath(inside, received[..k]);
    StaysBeneath(inside, received);
  }

  lemma NormalStart(names: seq<string>)
    requires names == ["."] || NormalNames(false, Base(names))
    requires names != [] && names[0] != ".." && names[0] != ""
    ensures ".." !in names && (names == ["."] <==> names[0] == ".")
  {
    if names != ["."] {
      forall i | 0 <= i < |names| ensures names[i] != ".." {
        if i < |Base(names)| {
          assert Base(names)[0] == names[0] && Base(names)[i] == names[i];
        }
      }
    }
  }

  /** A received name that is not refused leads nowhere but down, and is "." or has a real first name. */
  lemma ReceivedClean(name: string)
    requires ReceivedName(name).names != [] && ReceivedName(name).names[0] != ".."
    ensures !ReceivedName(name).root && ".." !in ReceivedName(name).names
    ensures ReceivedName(name).names == ["."] <==> ReceivedName(name).names[0] == "."
    ensures ReceivedName(name).names[0] != ""
  {
    ParseWellFormed(name);
    NormalForm(RelativePath(Parse(name)));
    NormalStart(ReceivedName(name).names);
  }

  lemma PositionOfBase(at: seq<string>, names: seq<string>)
    ensures Position(at, Base(names)) == Position(at, names)
  {
    if Base(names) != names {
      assert names == Base(names) + [""];
      PositionConcat(at, Base(names), [""]);
      assert Position(Position(at, Base(names)), [""]) == Position(at, Base(names));
    }
  }

  // ---- Both sides together ----

  lemma {:induction false} DepthOfProper(names: seq<string>)
    requires AllProper(Base(names))
    ensures Depth(names) == |Base(names)|
  {
    if names != [] {
      if |names| > 1 || names[0] != "" {
        assert Base(names)[0] == names[0];
        assert Base(names[1..]) == Base(names)[1..];
      }
      DepthOfProper(names[1..]);
    }
  }

  /** A name made of proper names, with or without a trailing slash, passes the receiver's checks unchanged. */
  lemma ProperNameReceived(names: seq<string>)
    requires Base(names) != [] && AllProper(Base(names)) && Base(names) + names[|Base(names)|..] == names
    ensures ReceivedName(ToText(Path(false, names))) == Path(false, names)
  {
    var proper := Base(names);
    var tail := names[|proper|..];
    assert WellFormed(Path(false, names)) by {
      assert forall i | 0 <= i < |proper| :: names[i] == proper[i];
    }
    TextRoundTrip(Path(false, names));
    WalkProper(false, [], false, proper, tail);
    assert [] + proper == proper;
    assert tail == [] || tail == [""];
    if tail == [""] {
      assert Walk(false, proper, false, [""]) == Walk(false, proper, true, []);
    }
  }

  /** A name that starts by leading up is refused. */
  lemma UpwardNameRefused(n: nat, tail: seq<string>)
    requires n > 0 && WellFormed(Path(false, Ups(n) + tail))
    requires tail == [] || (AllProper(Base(tail)) && WellFormed(Path(false, Ups(n) + tail)))
    ensures ReceivedName(ToText(Path(false, Ups(n) + tail))).names[..1] == [".."]
  {
    TextRoundTrip(Path(false, Ups(n) + tail));
    WalkUps([], n, tail);
    var stack := [] + Ups(n);
    var proper := Base(tail);
    WalkProper(false, stack, false, proper, tail[|proper|..]);
    assert proper + tail[|proper|..] == tail;
    assert Walk(false, [], false, Ups(n) + tail).0 == stack + proper;
  }

  lemma {:induction false} WalkUps(stack: seq<string>, n: nat, tail: seq<string>)
    requires stack == [] || stack[|stack| - 1] == ".."
    ensures Walk(false, stack, false, Ups(n) + tail) == Walk(false, stack + Ups(n), false, tail)
    decreases n
  {
    if n == 0 {
      assert Ups(n) + tail == tail && stack + Ups(n) == stack;
    } else {
      assert Ups(n)[1..] == Ups(n - 1);
      assert (Ups(n) + tail)[1..] == Ups(n - 1) + tail;
      WalkUps(stack + [".."], n - 1, tail);
      assert stack + [".."] + Ups(n - 1) == stack + Ups(n);
    }
  }

  lemma AbsoluteWellFormed(cwd: Path, p: Path)
    requires cwd.root && WellFormed(cwd) && WellFormed(p)
    ensures Absolute(cwd, p).root && WellFormed(Absolute(cwd, p))
  {}

  lemma RootedNormalProper(p: Path)
    requires p.root && WellFormed(p)
    ensures AllProper(Base(Normal(p).names))
  {
    NormalForm(p);
    var base := Base(Normal(p).names);
    forall i | 0 <= i < |base| ensures Proper(base[i]) {}
  }

  lemma AbsoluteNormal(cwd: Path, text: string)
    requires cwd.root && WellFormed(cwd)
    ensures var p := Normal(Absolute(cwd, Parse(text)));
            p.root && WellFormed(p) && AllProper(Base(p.names))
  {
    ParseWellFormed(text);
    AbsoluteWellFormed(cwd, Parse(text));
    NormalForm(Absolute(cwd, Parse(text)));
    RootedNormalProper(Absolute(cwd, Parse(text)));
  }

  lemma {:induction false} CommonPrefix(base: seq<string>, a: seq<string>, b: seq<string>)
    ensures CommonLength(base + a, base + b) == |base| + CommonLength(a, b)
  {
    if base == [] {
      assert base + a == a && base + b == b;
    } else {
      assert (base + a)[1..] == base[1..] + a && (base + b)[1..] == base[1..] + b;
      CommonPrefix(base[1..], a, b);
    }
  }

  lemma RelativeOfRooted(f: Path, d: Path)
    requires f.root && d.root
    ensures var m := CommonLength(f.names, d.names); Relative(f, d) == UpAndDown(f.names[m..], d.names[m..])
  {
    var a, b, m := f.names, d.names, CommonLength(f.names, d.names);
    CommonPrefix(["/"], a, b);
    assert (["/"] + a)[m + 1..] == a[m..] && (["/"] + b)[m + 1..] == b[m..];
  }

  lemma CommonTails(base: seq<string>, a: seq<string>, b: seq<string>)
    ensures var m, k := CommonLength(base + a, base + b), CommonLength(a, b);
            (base + a)[m..] == a[k..] && (base + b)[m..] == b[k..]
  {
    CommonPrefix(base, a, b);
  }

  lemma DownFrom(rest: seq<string>, slash: seq<string>)
    requires slash == [] || slash == [""]
    requires rest != [] && rest[0] == "" ==> rest == [""]
    ensures var k := CommonLength(rest, slash);
            UpAndDown(rest[k..], slash[k..]) == Path(false, if rest == [] || rest == [""] then ["."] else rest)
  {
    var k := CommonLength(rest, slash);
    if k == 0 {
      assert rest[k..] == rest && slash[k..] == slash && Ups(0) + rest == rest;
      assert slash == [""] ==> slash[1..] == [] && Depth(slash) == 0;
    } else {
      assert rest[0] == slash[0];
      assert rest[k..] == [] && slash[k..] == [];
    }
  }

  /** A file under the directory is offered by what follows the directory. */
  lemma RelativeBeneath(f: Path, d: Path, rest: seq<string>)
    requires f.root && d.root && f.names == Base(d.names) + rest
    requires rest != [] && rest[0] == "" ==> rest == [""]
    ensures Relative(f, d) == Path(false, if rest == [] || rest == [""] then ["."] else rest)
  {
    var base := Base(d.names);
    var slash := d.names[|base|..];
    assert d == Path(true, base + slash) && f == Path(true, base + rest);
    RelativeByNames(base, rest, slash);
  }

  lemma RelativeByNames(base: seq<string>, rest: seq<string>, slash: seq<string>)
    requires (slash == [] || slash == [""]) && (rest != [] && rest[0] == "" ==> rest == [""])
    ensures Relative(Path(true, base + rest), Path(true, base + slash)) ==
            Path(false, if rest == [] || rest == [""] then ["."] else rest)
  {
    RelativeOfRooted(Path(true, base + rest), Path(true, base + slash));
    DownFromBase(base, rest, slash);
  }

  lemma DownFromBase(base: seq<string>, rest: seq<string>, slash: seq<string>)
    requires (slash == [] || slash == [""]) && (rest != [] && rest[0] == "" ==> rest == [""])
    ensures var m := CommonLength(base + rest, base + slash);
            UpAndDown((base + rest)[m..], (base + slash)[m..]) ==
            Path(false, if rest == [] || rest == [""] then ["."] else rest)
  {
    CommonTails(base, rest, slash);
    DownFrom(rest, slash);
  }

  lemma UpFrom(base: seq<string>, slash: seq<string>, m: nat)
    requires (slash == [] || slash == [""]) && AllProper(base) && m < |base|
    ensures Depth((base + slash)[m..]) == |base| - m
  {
    var up := (base + slash)[m..];
    assert up == base[m..] + slash;
    assert Base(up) == base[m..];
    DepthOfProper(up);
  }

  lemma LongCommonPrefix(a: seq<string>, base: seq<string>, slash: seq<string>)
    ensures |base| <= CommonLength(a, base + slash) ==> base <= a
  {
    var m := CommonLength(a, base + slash);
    assert |base| <= m ==> a[..m][..|base|] == base;
  }

  /** A file outside the directory is offered by a name that leads up. */
  lemma RelativeOutside(f: Path, d: Path) returns (n: nat, m: nat)
    requires f.root && d.root && AllProper(Base(d.names)) && !(Base(d.names) <= f.names)
    ensures n > 0 && m <= |f.names| && Relative(f, d) == Path(false, Ups(n) + f.names[m..])
  {
    RelativeOfRooted(f, d);
    m := CommonLength(f.names, d.names);
    var base := Base(d.names);
    var slash := d.names[|base|..];
    assert d.names == base + slash && (slash == [] || slash == [""]);
    LongCommonPrefix(f.names, base, slash);
    UpFrom(base, slash, m);
    n := |base| - m;
  }

  lemma TailProper(names: seq<string>, m: nat)
    requires m <= |names| && WellFormed(Path(true, names)) && AllProper(Base(names))
    ensures AllProper(Base(names[m..]))
  {
    assert Base(names[m..]) == if m < |names| then Base(names)[m..] else [];
  }

  lemma DotReceived()
    ensures ReceivedName(ToText(Path(false, ["."]))) == Path(false, ["."])
  {
    TextRoundTrip(Path(false, ["."]));
    assert Walk(false, [], false, ["."]) == Walk(false, [], true, []);
  }

  /**
   * With a sender's directory, the receiver takes an offered name exactly when the file is under that
   * directory, and then writes it at the same relative place under its own.
   */
  lemma {:induction false} OfferLandsAtSamePlace(cwd: Path, directory: string, file: string, receiveDirectory: string)
    requires cwd.root && WellFormed(cwd) && directory != ""
    ensures var f, d := Normal(Absolute(cwd, Parse(file))).names, Base(Normal(Absolute(cwd, Parse(directory))).names);
            var taken := Destination(receiveDirectory, OfferedName(cwd, directory, file));
            && (taken.Some? <==> d <= f)
            && (d <= f && Base(f[|d|..]) != [] ==>
                  taken == Some(Append(ReceiveDirectory(receiveDirectory), Path(false, f[|d|..]))))
  {
    AbsoluteNormal(cwd, file);
    AbsoluteNormal(cwd, directory);
    var f, d := Normal(Absolute(cwd, Parse(file))), Normal(Absolute(cwd, Parse(directory)));
    if Base(d.names) <= f.names {
      OfferBeneath(f, d);
    } else {
      OfferOutside(f, d);
    }
  }

  lemma OfferBeneath(f: Path, d: Path)
    requires f.root && d.root && WellFormed(f) && AllProper(Base(f.names)) && Base(d.names) <= f.names
    ensures ReceivedName(ToText(Relative(f, d))) ==
            Path(false, if Base(f.names[|Base(d.names)|..]) == [] then ["."] else f.names[|Base(d.names)|..])
    ensures Base(f.names[|Base(d.names)|..]) != [] ==> Proper(f.names[|Base(d.names)|])
  {
    var n := |Base(d.names)|;
    var rest := f.names[n..];
    assert f.names == Base(d.names) + rest;
    assert rest != [] ==> rest[0] == f.names[n];
    RelativeBeneath(f, d, rest);
    TailProper(f.names, n);
    OnlySlash(rest);
    if Base(rest) == [] {
      DotReceived();
    } else {
      assert Proper(Base(rest)[0]);
      ProperNameReceived(rest);
    }
  }

  lemma OnlySlash(rest: seq<string>)
    ensures Base(rest) == [] <==> rest == [] || rest == [""]
    ensures Base(rest) + rest[|Base(rest)|..] == rest
  {}

  lemma OfferOutside(f: Path, d: Path)
    requires f.root && d.root && WellFormed(f) && AllProper(Base(f.names)) && AllProper(Base(d.names))
    requires !(Base(d.names) <= f.names)
    ensures var received := ReceivedName(ToText(Relative(f, d))).names; received != [] && received[0] == ".."
  {
    var n, m := RelativeOutside(f, d);
    TailProper(f.names, m);
    assert WellFormed(Path(false, Ups(n) + f.names[m..]));
    UpwardNameRefused(n, f.names[m..]);
    var received := ReceivedName(ToText(Relative(f, d))).names;
    assert received[0] == received[..1][0];
  }

  /** No file is offered under an empty name. */
  lemma OfferedNameNotEmpty(cwd: Path, directory: string, file: string)
    requires cwd.root && WellFormed(cwd)
    ensures OfferedName(cwd, directory, file) != ""
  {
    AbsoluteNormal(cwd, file);
    var f := Normal(Absolute(cwd, Parse(file)));
    if directory != "" {
      AbsoluteNormal(cwd, directory);
      var d := Normal(Absolute(cwd, Parse(directory)));
      if Base(d.names) <= f.names {
        OfferBeneath(f, d);
      } else {
        OfferOutside(f, d);
      }
      EmptyNameReceived();
    }
  }

  lemma EmptyNameReceived()
    ensures ReceivedName("").names == []
  {
    assert Parse("") == Path(false, []);
  }

  /** Without a sender's directory the file lands at its whole absolute place under the receive directory. */
  lemma {:induction false} OfferWithoutDirectory(cwd: Path, file: string, receiveDirectory: string)
    requires cwd.root && WellFormed(cwd)
    ensures var f := Normal(Absolute(cwd, Parse(file))).names;
            Destination(receiveDirectory, OfferedName(cwd, "", file)) ==
            if f == [] then None else Some(Append(ReceiveDirectory(receiveDirectory), Path(false, f)))
  {
    AbsoluteNormal(cwd, file);
    var f := Normal(Absolute(cwd, Parse(file)));
    TextRoundTrip(f);
    if f.names != [] {
      assert Proper(Base(f.names)[0]);
      TextRoundTrip(Path(false, f.names));
      ProperNameReceived(f.names);
    }
  }
}
