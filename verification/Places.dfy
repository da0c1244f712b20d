/**
 * Where paths lead, by their names alone: the lexical operations of `Paths` keep it, so an offered file lands at the
 * place that the sender's and the receiver's own paths lead to, whatever detours they are written with.
 */
module Places {
  import opened Wrappers
  import opened Text
  import opened Paths

  /** Where text leads when it is read in the directory cwd. */
  function Place(cwd: Path, text: string): seq<string> {
    Position([], Absolute(cwd, Parse(text)).names)
  }

  // ---- Each operation keeps the place ----

  lemma PositionOneMore(at: seq<string>, names: seq<string>, name: string)
    ensures Position(at, names + [name]) == Position(Position(at, names), [name])
  {
    PositionConcat(at, names, [name]);
  }

  lemma OneName(at: seq<string>, name: string)
    ensures Position(at, [name]) == if name == "" || name == "." then at
                                    else if name == ".." then (if at == [] then [] else at[..|at| - 1])
                                    else at + [name]
  {
    assert [name][1..] == [];
  }

  /** Going on from a name and back again is not going anywhere. */
  lemma BackAgain(at: seq<string>, stack: seq<string>)
    requires stack != [] && stack[|stack| - 1] != "" && stack[|stack| - 1] != "." && stack[|stack| - 1] != ".."
    ensures Position(Position(at, stack), [".."]) == Position(at, stack[..|stack| - 1])
  {
    var front, last := stack[..|stack| - 1], stack[|stack| - 1];
    assert stack == front + [last];
    PositionOneMore(at, front, last);
    OneName(Position(at, front), last);
    OneName(Position(at, front) + [last], "..");
  }

  lemma {:induction false} WalkLeads(root: bool, at: seq<string>, stack: seq<string>, dir: bool, rest: seq<string>)
    requires NormalNames(root, stack) && (forall i | 0 <= i < |rest| :: '/' !in rest[i]) && (root ==> at == [])
    ensures Position(at, Walk(root, stack, dir, rest).0) == Position(Position(at, stack), rest)
    decreases rest
  {
    if rest != [] {
      var name := rest[0];
      assert rest == [name] + rest[1..];
      PositionConcat(Position(at, stack), [name], rest[1..]);
      OneName(Position(at, stack), name);
      if name == "" || name == "." {
        WalkLeads(root, at, stack, true, rest[1..]);
      } else if name != ".." {
        PositionOneMore(at, stack, name);
        WalkLeads(root, at, stack + [name], false, rest[1..]);
      } else if stack != [] && stack[|stack| - 1] != ".." {
        BackAgain(at, stack);
        WalkLeads(root, at, stack[..|stack| - 1], true, rest[1..]);
      } else if root {
        WalkLeads(root, at, stack, true, rest[1..]);
      } else {
        PositionOneMore(at, stack, name);
        WalkLeads(root, at, stack + [name], false, rest[1..]);
      }
    }
  }

  /** A path and its normal form lead to the same place, from wherever they are read. */
  lemma NormalLeads(at: seq<string>, p: Path)
    requires WellFormed(p) && (p.root ==> at == [])
    ensures Position(at, Normal(p).names) == Position(at, p.names)
  {
    WalkLeads(p.root, at, [], false, p.names);
    var stack := Walk(p.root, [], false, p.names).0;
    OneName(at, ".");
    PositionOneMore(at, stack, "");
    OneName(Position(at, stack), "");
  }

  /** A relative path appended to another leads on from where that one leads. */
  lemma AppendLeads(at: seq<string>, p: Path, q: Path)
    requires !q.root
    ensures Append(p, q).root == p.root && Position(at, Append(p, q).names) == Position(Position(at, p.names), q.names)
  {
    PositionOfBase(at, p.names);
    PositionConcat(at, Base(p.names), if q.names == [] then [""] else q.names);
    OneName(Position(at, p.names), "");
  }

  /** An absolute path leads where it leads, a relative one on from the directory it is read in. */
  lemma PlaceOfText(cwd: Path, text: string)
    ensures Place(cwd, text) == Position(if Parse(text).root then [] else Position([], cwd.names), Parse(text).names)
  {
    if !Parse(text).root {
      AppendLeads([], cwd, Parse(text));
    }
  }

  /** A rooted normal form is its place, spelled out. */
  lemma NormalIsPlace(p: Path)
    requires p.root && WellFormed(p)
    ensures Base(Normal(p).names) == Position([], p.names)
  {
    NormalLeads([], p);
    RootedNormalProper(p);
    PositionOfBase([], Normal(p).names);
    ProperPosition([], Base(Normal(p).names));
  }

  lemma {:induction false} ProperPosition(at: seq<string>, names: seq<string>)
    requires AllProper(names)
    ensures Position(at, names) == at + names
    decreases names
  {
    if names == [] {
      Assoc(at, [], []);
    } else {
      assert names == [names[0]] + names[1..];
      ProperPosition(at + [names[0]], names[1..]);
      Assoc(at, [names[0]], names[1..]);
    }
  }

  // ---- Two ways to write one place ----

  lemma {:induction false} SplitConcat(a: string, b: string)
    ensures Split(a + ['/'] + b, '/') == Split(a, '/') + Split(b, '/')
    decreases |a|
  {
    var found := Find(a, '/', 0);
    if found.None? {
      SplitFirst(a, '/', b);
    } else {
      var head, tail := a[..found.value], a[found.value + 1..];
      assert a == head + ['/'] + tail;
      assert a + ['/'] + b == head + ['/'] + (tail + ['/'] + b);
      SplitFirst(head, '/', tail);
      SplitFirst(head, '/', tail + ['/'] + b);
      SplitConcat(tail, b);
      Assoc([head], Split(tail, '/'), Split(b, '/'));
    }
  }

  lemma {:induction false} SolidAppend(a: seq<string>, b: seq<string>)
    ensures Solid(a + b) == Solid(a) + Solid(b)
  {
    if a == [] {
      assert a + b == b;
    } else {
      assert (a + b)[1..] == a[1..] + b;
      SolidAppend(a[1..], b);
      Assoc(if a[0] == "" then [] else [a[0]], Solid(a[1..]), Solid(b));
    }
  }

  /** What parsing makes of text whose pieces are known. */
  lemma ParseOfPieces(text: string, pieces: seq<string>)
    requires Split(text, '/') == pieces
    ensures Parse(text).root == (text != "" && text[0] == '/')
    ensures var names := Solid(pieces);
            Parse(text).names == if names != [] && pieces[|pieces| - 1] == "" then names + [""] else names
  {}

  lemma PiecesTwice(a: string, b: string)
    ensures Split(a + ['/'] + (['/'] + b), '/') == Split(a, '/') + ([""] + Split(b, '/'))
  {
    assert ['/'] + b == "" + ['/'] + b;
    SplitConcat("", b);
    SplitWhole("", '/');
    SplitConcat(a, ['/'] + b);
  }

  lemma SamePieces(a: seq<string>, b: seq<string>)
    requires b != []
    ensures Solid(a + ([""] + b)) == Solid(a + b)
    ensures (a + ([""] + b))[|a + ([""] + b)| - 1] == (a + b)[|a + b| - 1]
  {
    SolidAppend(a, [""] + b);
    SolidAppend(a, b);
    SolidSkips(b);
    SameLast(a, b);
  }

  lemma SolidSkips(b: seq<string>)
    ensures Solid([""] + b) == Solid(b)
  {
    assert ([""] + b)[1..] == b;
  }

  lemma SameLast(a: seq<string>, b: seq<string>)
    requires b != []
    ensures (a + ([""] + b))[|a + ([""] + b)| - 1] == (a + b)[|a + b| - 1]
  {}

  /** A run of separators is as good as one. */
  lemma DoubledSlash(a: string, b: string)
    ensures Parse(a + ['/'] + (['/'] + b)) == Parse(a + ['/'] + b)
  {
    var x, y := Split(a, '/'), Split(b, '/');
    PiecesTwice(a, b);
    SplitConcat(a, b);
    SamePieces(x, y);
    ParseOfPieces(a + ['/'] + (['/'] + b), x + ([""] + y));
    ParseOfPieces(a + ['/'] + b, x + y);
  }

  // ---- Where an offered file lands ----

  lemma ReceiveDirectoryLeads(theirs: Path, directory: string)
    requires theirs.root
    ensures Position([], Absolute(theirs, ReceiveDirectory(directory)).names) == Place(theirs, directory)
  {
    if directory == "" {
      SplitWhole("", '/');
      SplitWhole(".", '/');
      assert Parse("") == Path(false, []) && Parse(".") == Path(false, ["."]);
      PlaceOfText(theirs, "");
      PlaceOfText(theirs, ".");
      OneName(Position([], theirs.names), ".");
    }
  }

  /** The destination of a received name leads on from the receive directory. */
  lemma DestinationLeads(theirs: Path, directory: string, name: string)
    requires theirs.root && Destination(directory, name).Some?
    ensures Position([], Absolute(theirs, Destination(directory, name).value).names) ==
            Position(Place(theirs, directory), ReceivedName(name).names)
  {
    var dir, received := ReceiveDirectory(directory), ReceivedName(name);
    ReceivedClean(name);
    ReceiveDirectoryLeads(theirs, directory);
    AppendLeads([], dir, received);
    if !dir.root {
      AppendLeads([], theirs, dir);
      AppendLeads([], theirs, Append(dir, received));
      AppendLeads(Position([], theirs.names), dir, received);
    }
  }

  /** Where text leads, as the names of the normal form that the sender makes of it. */
  lemma NormalOfText(cwd: Path, text: string)
    requires cwd.root && WellFormed(cwd)
    ensures Base(Normal(Absolute(cwd, Parse(text))).names) == Place(cwd, text)
    ensures AllProper(Place(cwd, text))
  {
    ParseWellFormed(text);
    AbsoluteWellFormed(cwd, Parse(text));
    NormalIsPlace(Absolute(cwd, Parse(text)));
    RootedNormalProper(Absolute(cwd, Parse(text)));
  }

  /**
   * With a sender's directory, a file is taken exactly when its path leads beneath the place that the directory's path
   * leads to; and it lands on from the place that the receiver's own path leads to, by the names in between. Nothing is
   * said here of normal forms: both sides' paths may have dots, detours and repeated slashes.
   */
  lemma LandsByPlace(cwd: Path, directory: string, file: string, theirs: Path, receiveDirectory: string)
    requires cwd.root && WellFormed(cwd) && directory != "" && theirs.root
    ensures var f, d := Place(cwd, file), Place(cwd, directory);
            var taken := Destination(receiveDirectory, OfferedName(cwd, directory, file));
            && (taken.Some? <==> d <= f)
            && (d <= f ==>
                  Position([], Absolute(theirs, taken.value).names) == Place(theirs, receiveDirectory) + f[|d|..])
  {
    var f, d := Place(cwd, file), Place(cwd, directory);
    var fn := Normal(Absolute(cwd, Parse(file))).names;
    NormalOfText(cwd, file);
    NormalOfText(cwd, directory);
    OfferLandsAtSamePlace(cwd, directory, file, receiveDirectory);
    PrefixOfBase(d, fn);
    if d <= f {
      var name := OfferedName(cwd, directory, file);
      AbsoluteNormal(cwd, file);
      AbsoluteNormal(cwd, directory);
      OfferBeneath(Normal(Absolute(cwd, Parse(file))), Normal(Absolute(cwd, Parse(directory))));
      DestinationLeads(theirs, receiveDirectory, name);
      TailLeads(Place(theirs, receiveDirectory), f, fn, |d|);
      OneName(Place(theirs, receiveDirectory), ".");
      Assoc(Place(theirs, receiveDirectory), [], []);
    }
  }

  lemma PrefixOfBase(d: seq<string>, names: seq<string>)
    requires AllProper(d)
    ensures d <= names <==> d <= Base(names)
  {}

  lemma TailLeads(at: seq<string>, f: seq<string>, names: seq<string>, n: nat)
    requires f == Base(names) && AllProper(f) && n <= |f|
    ensures Position(at, names[n..]) == at + f[n..]
    ensures Base(names[n..]) == f[n..]
  {
    assert Base(names[n..]) == f[n..];
    PositionOfBase(at, names[n..]);
    ProperPosition(at, f[n..]);
  }

  /** Without a sender's directory a file lands at its whole place under the receiver's, unless that is the root. */
  lemma LandsByWholePlace(cwd: Path, file: string, theirs: Path, receiveDirectory: string)
    requires cwd.root && WellFormed(cwd) && theirs.root
    ensures var f := Place(cwd, file);
            var taken := Destination(receiveDirectory, OfferedName(cwd, "", file));
            && (taken.Some? <==> f != [])
            && (f != [] ==> Position([], Absolute(theirs, taken.value).names) == Place(theirs, receiveDirectory) + f)
  {
    var fn := Normal(Absolute(cwd, Parse(file))).names;
    NormalOfText(cwd, file);
    OfferWithoutDirectory(cwd, file, receiveDirectory);
    if fn != [] {
      WholeNameReceived(cwd, file);
      DestinationLeads(theirs, receiveDirectory, OfferedName(cwd, "", file));
      TailLeads(Place(theirs, receiveDirectory), Place(cwd, file), fn, 0);
      assert fn[0..] == fn && Place(cwd, file)[0..] == Place(cwd, file);
    }
  }

  lemma WholeNameReceived(cwd: Path, file: string)
    requires cwd.root && WellFormed(cwd) && Normal(Absolute(cwd, Parse(file))).names != []
    ensures Place(cwd, file) != []
    ensures ReceivedName(OfferedName(cwd, "", file)) == Path(false, Normal(Absolute(cwd, Parse(file))).names)
  {
    AbsoluteNormal(cwd, file);
    NormalOfText(cwd, file);
    var f := Normal(Absolute(cwd, Parse(file)));
    TextRoundTrip(f);
    TextRoundTrip(Path(false, f.names));
    ProperNameReceived(f.names);
  }

  // ---- Which names are refused ----

  lemma {:induction false} NothingNew(at: seq<string>, names: seq<string>, x: string)
    requires x !in at && x !in names
    ensures x !in Position(at, names)
    decreases names
  {
    if names != [] {
      var here, back := names[0] == "" || names[0] == ".", names[0] == "..";
      assert x !in names[1..];
      NothingNew(if here then at else if back then (if at == [] then [] else at[..|at| - 1]) else at + [names[0]],
                 names[1..], x);
    }
  }

  lemma {:induction false} WalkNothingNew(root: bool, stack: seq<string>, dir: bool, rest: seq<string>, x: string)
    requires x !in stack && x !in rest
    ensures x !in Walk(root, stack, dir, rest).0
    decreases rest
  {
    if rest != [] {
      var name := rest[0];
      assert x !in rest[1..] && x !in stack + [name];
      WalkNothingNew(root, stack, true, rest[1..], x);
      WalkNothingNew(root, stack + [name], false, rest[1..], x);
      if stack != [] {
        WalkNothingNew(root, stack[..|stack| - 1], true, rest[1..], x);
      }
    }
  }

  lemma NormalNothingNew(p: Path, x: string)
    requires x != "" && x != "." && x !in p.names
    ensures x !in Normal(p).names
  {
    WalkNothingNew(p.root, [], false, p.names, x);
  }

  /**
   * Read in a directory whose name x it does not mention, a name that is not empty is refused if and only if it leads
   * out of that directory, whatever detours it takes.
   */
  lemma EscapeRefused(directory: string, name: string, x: string)
    requires x != "" && x != "." && x != ".." && x !in Parse(name).names
    ensures Destination(directory, name) == None <==>
            Parse(name).names == [] || !([x] <= Position([x], Parse(name).names))
  {
    var names, received := Parse(name).names, ReceivedName(name).names;
    ParseWellFormed(name);
    NormalForm(RelativePath(Parse(name)));
    NormalLeads([x], RelativePath(Parse(name)));
    if received != [] && received[0] == ".." {
      NormalNothingNew(RelativePath(Parse(name)), x);
      ClimbsAway(received, x);
    } else if received != [] {
      ReceivedClean(name);
      StaysBeneath([x], received);
    }
  }

  lemma ClimbsAway(names: seq<string>, x: string)
    requires names != [] && names[0] == ".." && x !in names
    ensures !([x] <= Position([x], names))
  {
    assert names == [".."] + names[1..];
    PositionConcat([x], [".."], names[1..]);
    OneName([x], "..");
    assert [x][..0] == [];
    NothingNew([], names[1..], x);
    var place := Position([], names[1..]);
    assert place != [] ==> place[0] in place;
  }
}
