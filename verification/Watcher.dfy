/** The directory watcher's debouncing and coalescing of file changes (src/FileWatcher.cpp). */
module Watcher {
  import opened Wrappers
  import opened Text
  import opened Paths
  import Places

  datatype Change = Added | Modified | Removed
  type Time = int

  // ---- Coalescing changes to one path ----

  function Coalesce(previous: Change, change: Change): Change {
    if previous == Added && change == Modified then Added
    else if previous == Removed && change == Added then Modified
    else change
  }

  /** The change reported for a path that went through h. */
  function Coalesced(h: seq<Change>): Change
    requires h != []
  {
    if |h| == 1 then h[0] else Coalesce(Coalesced(h[..|h| - 1]), h[|h| - 1])
  }

  lemma {:induction false} RemovedExactly(h: seq<Change>)
    requires h != []
    ensures Coalesced(h) == Removed <==> h[|h| - 1] == Removed
  {
    if |h| > 1 {
      RemovedExactly(h[..|h| - 1]);
    }
  }

  /** The index of an addition that still counts: not right after a removal, and with no removal since. */
  ghost predicate NewSince(h: seq<Change>, i: nat) {
    && i < |h| && h[i] == Added && (i > 0 ==> h[i - 1] != Removed)
    && forall j | i < j < |h| :: h[j] != Removed
  }

  lemma {:induction false} AddedExactly(h: seq<Change>)
    requires h != []
    ensures Coalesced(h) == Added <==> exists i: nat :: NewSince(h, i)
  {
    var n := |h| - 1;
    if n == 0 {
      assert h[0] == Added ==> NewSince(h, 0);
    } else {
      var before := h[..n];
      AddedExactly(before);
      RemovedExactly(before);
      if i: nat :| NewSince(before, i) {
        assert h[n] != Removed ==> NewSince(h, i);
      }
      assert h[n] == Added && before[n - 1] != Removed ==> NewSince(h, n);
      if i: nat :| NewSince(h, i) {
        assert i < n ==> NewSince(before, i);
      }
    }
  }

  // ---- What it means for the file ----

  function Present(present: bool, h: seq<Change>): bool {
    if h == [] then present else h[|h| - 1] != Removed
  }

  /** Files are added when absent, and modified or removed when present. */
  ghost predicate WellFormed(present: bool, h: seq<Change>) {
    forall i | 0 <= i < |h| :: (h[i] == Added) == !Present(present, h[..i])
  }

  /** For histories that files can have, the reported change is the net effect on the file. */
  lemma NetEffect(present: bool, h: seq<Change>)
    requires h != [] && WellFormed(present, h)
    ensures Coalesced(h) == Removed <==> !Present(present, h)
    ensures Coalesced(h) == Added <==> !present && Present(present, h) && Removed !in h
    ensures Coalesced(h) == Modified <==> Present(present, h) && (present || Removed in h)
  {
    RemovedExactly(h);
    AddedExactly(h);
    if i: nat :| NewSince(h, i) {
      assert !Present(present, h[..i]);
    }
    if Removed !in h && !present {
      assert h[..0] == [];
      assert NewSince(h, 0);
    }
  }

  // ---- The pending table and its deadline ----

  datatype Delivery = Delivery(at: Time, changes: map<string, Change>)
  datatype State = State(
    pending: map<string, Change>, deadline: Time, timeout: Time, listening: bool, delivered: seq<Delivery>)

  datatype Event =
    | Configured(timeout: Time, listening: bool)
    | Noted(at: Time, path: string, change: Change)
    | Polled(at: Time)

  const START := State(map[], 0, 10000, false, [])

  function Note(s: State, at: Time, path: string, change: Change): State {
    s.(pending := s.pending[path := if path in s.pending then Coalesce(s.pending[path], change) else change],
       deadline := at + s.timeout)
  }

  function Poll(s: State, at: Time): State {
    if s.pending == map[] || at < s.deadline then s
    else s.(pending := map[], delivered := if s.listening then s.delivered + [Delivery(at, s.pending)] else s.delivered)
  }

  function Step(s: State, e: Event): State {
    match e
    case Configured(timeout, listening) => s.(timeout := timeout, listening := listening)
    case Noted(at, path, change) => Note(s, at, path, change)
    case Polled(at) => Poll(s, at)
  }

  function Run(events: seq<Event>): State {
    if events == [] then START else Step(Run(events[..|events| - 1]), events[|events| - 1])
  }

  // ---- Reference: batches of notifications, each closed by the first poll after a quiet period ----

  datatype Notice = Notice(at: Time, timeout: Time, path: string, change: Change)
  datatype Closed = Closed(at: Time, heard: bool, batch: seq<Notice>)
  datatype History = History(timeout: Time, listening: bool, batch: seq<Notice>, closed: seq<Closed>)

  ghost predicate Quiet(batch: seq<Notice>, at: Time) {
    batch != [] && at >= batch[|batch| - 1].at + batch[|batch| - 1].timeout
  }

  ghost function Batches(events: seq<Event>): (r: History)
    ensures forall c | c in r.closed :: Quiet(c.batch, c.at)
  {
    if events == [] then History(10000, false, [], []) else
    var h := Batches(events[..|events| - 1]);
    match events[|events| - 1]
    case Configured(timeout, listening) => h.(timeout := timeout, listening := listening)
    case Noted(at, path, change) => h.(batch := h.batch + [Notice(at, h.timeout, path, change)])
    case Polled(at) =>
      if Quiet(h.batch, at) then h.(batch := [], closed := h.closed + [Closed(at, h.listening, h.batch)]) else h
  }

  function ChangesOf(batch: seq<Notice>, path: string): seq<Change> {
    if batch == [] then [] else
    var before := ChangesOf(batch[..|batch| - 1], path);
    var last := batch[|batch| - 1];
    if last.path == path then before + [last.change] else before
  }

  ghost function PathsOf(batch: seq<Notice>): set<string> {
    set n | n in batch :: n.path
  }

  lemma {:induction false} NotedPaths(batch: seq<Notice>, path: string)
    ensures path in PathsOf(batch) <==> ChangesOf(batch, path) != []
  {
    if batch != [] {
      NotedPaths(batch[..|batch| - 1], path);
      assert batch == batch[..|batch| - 1] + [batch[|batch| - 1]];
    }
  }

  /** What a batch should report: each path of it once, with the coalesced change. */
  ghost predicate Summarizes(changes: map<string, Change>, batch: seq<Notice>) {
    && changes.Keys == PathsOf(batch)
    && forall p | p in changes :: ChangesOf(batch, p) != [] && changes[p] == Coalesced(ChangesOf(batch, p))
  }

  ghost function Heard(closed: seq<Closed>): seq<Closed> {
    if closed == [] then []
    else Heard(closed[..|closed| - 1]) + if closed[|closed| - 1].heard then [closed[|closed| - 1]] else []
  }

  lemma NotePending(batch: seq<Notice>, pending: map<string, Change>, n: Notice)
    requires Summarizes(pending, batch)
    ensures var change := if n.path in pending then Coalesce(pending[n.path], n.change) else n.change;
            Summarizes(pending[n.path := change], batch + [n])
  {
    var next := batch + [n];
    assert next[..|batch|] == batch;
    NotedPaths(batch, n.path);
    assert PathsOf(next) == PathsOf(batch) + {n.path} by {
      assert n in next && forall m :: m in next <==> m in batch || m == n;
    }
    var h := ChangesOf(batch, n.path);
    assert ChangesOf(next, n.path) == h + [n.change];
    assert h != [] ==> (h + [n.change])[..|h|] == h;
  }

  ghost predicate Delivers(delivered: seq<Delivery>, closed: seq<Closed>) {
    && |delivered| == |closed|
    && forall i | 0 <= i < |delivered| ::
         delivered[i].at == closed[i].at && Summarizes(delivered[i].changes, closed[i].batch)
  }

  ghost predicate Refines(s: State, h: History) {
    && Summarizes(s.pending, h.batch)
    && s.timeout == h.timeout && s.listening == h.listening
    && (h.batch != [] ==> s.deadline == h.batch[|h.batch| - 1].at + h.batch[|h.batch| - 1].timeout)
    && Delivers(s.delivered, Heard(h.closed))
  }

  lemma EmptyTogether(pending: map<string, Change>, batch: seq<Notice>)
    requires Summarizes(pending, batch)
    ensures pending == map[] <==> batch == []
  {
    if batch != [] {
      assert batch[0] in batch && batch[0].path in pending;
    } else {
      assert pending.Keys == {};
    }
  }

  lemma PollCloses(s: State, h: History, at: Time)
    requires Refines(s, h) && Quiet(h.batch, at)
    ensures Refines(Poll(s, at), h.(batch := [], closed := h.closed + [Closed(at, h.listening, h.batch)]))
  {
    EmptyTogether(s.pending, h.batch);
    var c := Closed(at, h.listening, h.batch);
    assert (h.closed + [c])[..|h.closed|] == h.closed;
    assert Heard(h.closed + [c]) == Heard(h.closed) + if c.heard then [c] else [];
    assert PathsOf([]) == {};
  }

  /**
   * Over every run the pending table is the summary of the notifications since the last flush, and what was
   * delivered is the summary of each closed batch, in order, at the poll that closed it.
   */
  lemma {:induction false} RunRefinesBatches(events: seq<Event>)
    ensures Refines(Run(events), Batches(events))
  {
    if events == [] {
      assert PathsOf([]) == {};
    } else {
      var before := events[..|events| - 1];
      RunRefinesBatches(before);
      var s, h := Run(before), Batches(before);
      match events[|events| - 1]
      case Configured(_, _) =>
      case Noted(at, path, change) =>
        NotePending(h.batch, s.pending, Notice(at, h.timeout, path, change));
      case Polled(at) =>
        EmptyTogether(s.pending, h.batch);
        if Quiet(h.batch, at) {
          PollCloses(s, h, at);
        }
    }
  }

  ghost function NoticesIn(closed: seq<Closed>): seq<Notice> {
    if closed == [] then [] else NoticesIn(closed[..|closed| - 1]) + closed[|closed| - 1].batch
  }

  ghost function Changes(events: seq<Event>): seq<(Time, string, Change)> {
    if events == [] then [] else
    var before := Changes(events[..|events| - 1]);
    match events[|events| - 1]
    case Noted(at, path, change) => before + [(at, path, change)]
    case _ => before
  }

  ghost function Bare(batch: seq<Notice>): (r: seq<(Time, string, Change)>)
    ensures |r| == |batch|
  {
    seq(|batch|, i requires 0 <= i < |batch| => (batch[i].at, batch[i].path, batch[i].change))
  }

  lemma BareOneMore(batch: seq<Notice>, n: Notice)
    ensures Bare(batch + [n]) == Bare(batch) + [(n.at, n.path, n.change)]
  {}

  lemma ClosedOneMore(closed: seq<Closed>, c: Closed)
    ensures NoticesIn(closed + [c]) == NoticesIn(closed) + c.batch
  {
    assert (closed + [c])[..|closed|] == closed;
  }

  lemma NoticeKept(h: History, n: Notice)
    ensures Bare(NoticesIn(h.closed) + (h.batch + [n])) ==
            Bare(NoticesIn(h.closed) + h.batch) + [(n.at, n.path, n.change)]
  {
    Assoc(NoticesIn(h.closed), h.batch, [n]);
    BareOneMore(NoticesIn(h.closed) + h.batch, n);
  }

  lemma BatchKept(h: History, c: Closed)
    requires c.batch == h.batch
    ensures NoticesIn(h.closed + [c]) + [] == NoticesIn(h.closed) + h.batch
  {
    ClosedOneMore(h.closed, c);
    Assoc(NoticesIn(h.closed), h.batch, []);
  }

  /** Every notification is in exactly one batch, in the order of arrival. */
  lemma {:induction false} NothingLost(events: seq<Event>)
    ensures var h := Batches(events); Bare(NoticesIn(h.closed) + h.batch) == Changes(events)
  {
    if events != [] {
      var before := events[..|events| - 1];
      NothingLost(before);
      var h := Batches(before);
      match events[|events| - 1]
      case Configured(_, _) =>
      case Noted(at, path, change) => NoticeKept(h, Notice(at, h.timeout, path, change));
      case Polled(at) => BatchKept(h, Closed(at, h.listening, h.batch));
    }
  }

  // ---- Kernel events ----

  datatype Flag = Ignored | IsDir | Create | CloseWrite | Delete | MovedFrom | MovedTo

  /** A directory as one iteration sees it; a negative descriptor says that it could not be watched. */
  datatype Dir = Dir(wd: int, entries: seq<Entry>)
  datatype Entry = Link | Special | Regular(name: string) | Folder(name: string, dir: Dir)

  /** An event names a watch; a directory that appears comes with what is then found in it. */
  datatype KernelEvent = KernelEvent(wd: int, mask: set<Flag>, name: string, dir: Dir)

  datatype Table = Table(watches: map<int, string>, created: set<string>, notes: seq<(string, Change)>)

  /** A name within a directory; no second slash is put behind one. */
  function Child(dir: string, name: string): string {
    if dir == "" || dir[|dir| - 1] == '/' then dir + name else dir + ['/'] + name
  }

  lemma ParseBase(text: string)
    ensures Base(Parse(text).names) == Solid(Split(text, '/'))
  {
    var names := Solid(Split(text, '/'));
    assert names != [] ==> names[|names| - 1] in names;
  }

  lemma AppendName(dir: string, name: string)
    ensures Append(Parse(dir), Path(false, [name])) == Path(Parse(dir).root, Solid(Split(dir, '/')) + [name])
  {
    ParseBase(dir);
    Assoc([], [], [name]);
  }

  /** Text that ends in a name after a slash. */
  lemma LastName(front: string, name: string)
    requires Proper(name)
    ensures Parse(front + ['/'] + name).names == Solid(Split(front, '/')) + [name]
  {
    var pieces := Split(front, '/') + [name];
    Places.SplitConcat(front, name);
    SplitWhole(name, '/');
    Places.SolidAppend(Split(front, '/'), [name]);
    assert [name][1..] == [] && Solid([name]) == [name];
    Places.ParseOfPieces(front + ['/'] + name, pieces);
  }

  lemma SlashAtEnd(front: string)
    ensures Solid(Split(front + ['/'], '/')) == Solid(Split(front, '/'))
  {
    assert front + ['/'] + "" == front + ['/'];
    Places.SplitConcat(front, "");
    SplitWhole("", '/');
    Places.SolidAppend(Split(front, '/'), [""]);
    assert [""][1..] == [];
    Assoc(Solid(Split(front, '/')), [], []);
  }

  lemma BareName(name: string)
    requires Proper(name)
    ensures Parse(name) == Path(false, [name]) && Solid(Split("", '/')) == []
  {
    SplitWhole(name, '/');
    SplitWhole("", '/');
    assert [name][1..] == [] && [""][1..] == [];
    assert name[0] in name;
    Places.ParseOfPieces(name, [name]);
  }

  /** Which is what the library's operator makes of the directory's path and the name. */
  lemma ChildIsAppend(dir: string, name: string)
    requires Proper(name)
    ensures Parse(Child(dir, name)) == Append(Parse(dir), Path(false, [name]))
  {
    AppendName(dir, name);
    if dir == "" {
      BareName(name);
      assert "" + name == name;
    } else if dir[|dir| - 1] == '/' {
      var front := dir[..|dir| - 1];
      assert dir == front + ['/'];
      SlashAtEnd(front);
      LastName(front, name);
    } else {
      LastName(dir, name);
    }
  }

  function AddTree(t: Table, path: string, dir: Dir, report: bool): Table
    decreases dir, 0
  {
    if dir.wd < 0 then t else AddEntries(t.(watches := t.watches[dir.wd := path]), path, dir.entries, report)
  }

  function AddEntries(t: Table, path: string, entries: seq<Entry>, report: bool): Table
    decreases entries, |entries|
  {
    if entries == [] then t else
    var next := match entries[0]
      case Folder(name, dir) => AddTree(t, Child(path, name), dir, report)
      case Regular(name) => if report then t.(notes := t.notes + [(Child(path, name), Added)]) else t
      case _ => t;
    AddEntries(next, path, entries[1..], report)
  }

  function Handle(t: Table, e: KernelEvent): Table {
    if Ignored in e.mask then t.(watches := t.watches - {e.wd})
    else if e.wd !in t.watches || e.name == "" then t
    else
      var path := Child(t.watches[e.wd], e.name);
      if Create in e.mask || MovedTo in e.mask then
        if IsDir in e.mask then AddTree(t, path, e.dir, true)
        else if MovedTo in e.mask then t.(notes := t.notes + [(path, Added)])
        else t.(created := t.created + {path})
      else if IsDir in e.mask then t
      else if CloseWrite in e.mask then
        t.(created := t.created - {path},
           notes := t.notes + [(path, if path in t.created then Added else Modified)])
      else if Delete in e.mask || MovedFrom in e.mask then
        t.(created := t.created - {path}, notes := t.notes + [(path, Removed)])
      else t
  }

  function HandleAll(t: Table, events: seq<KernelEvent>): Table {
    if events == [] then t else Handle(HandleAll(t, events[..|events| - 1]), events[|events| - 1])
  }

  function NoteAll(s: State, at: Time, notes: seq<(string, Change)>): State {
    if notes == [] then s
    else Note(NoteAll(s, at, notes[..|notes| - 1]), at, notes[|notes| - 1].0, notes[|notes| - 1].1)
  }

  /** The file an event of this kind is about, as the watches stand. */
  function Target(t: Table, e: KernelEvent): Option<string> {
    if Ignored in e.mask || e.wd !in t.watches || e.name == "" || IsDir in e.mask then None
    else Some(Child(t.watches[e.wd], e.name))
  }

  predicate Creates(t: Table, e: KernelEvent, path: string) {
    Target(t, e) == Some(path) && Create in e.mask && MovedTo !in e.mask
  }

  /** A write closed, or the file gone. */
  predicate Settles(t: Table, e: KernelEvent, path: string) {
    Target(t, e) == Some(path) && !(Create in e.mask || MovedTo in e.mask) &&
    (CloseWrite in e.mask || Delete in e.mask || MovedFrom in e.mask)
  }

  ghost predicate Unsettled(t: Table, events: seq<KernelEvent>, path: string, from: nat) {
    forall j | from <= j < |events| :: !Settles(HandleAll(t, events[..j]), events[j], path)
  }

  lemma AddTreeKeepsCreated(t: Table, path: string, dir: Dir, report: bool)
    ensures AddTree(t, path, dir, report).created == t.created
    decreases dir, 0
  {
    if dir.wd >= 0 {
      AddEntriesKeepsCreated(t.(watches := t.watches[dir.wd := path]), path, dir.entries, report);
    }
  }

  lemma AddEntriesKeepsCreated(t: Table, path: string, entries: seq<Entry>, report: bool)
    ensures AddEntries(t, path, entries, report).created == t.created
    decreases entries, |entries|
  {
    if entries != [] {
      match entries[0]
      case Folder(name, dir) =>
        AddTreeKeepsCreated(t, Child(path, name), dir, report);
        AddEntriesKeepsCreated(AddTree(t, Child(path, name), dir, report), path, entries[1..], report);
      case Regular(name) =>
        AddEntriesKeepsCreated(if report then t.(notes := t.notes + [(Child(path, name), Added)]) else t,
                               path, entries[1..], report);
      case _ => AddEntriesKeepsCreated(t, path, entries[1..], report);
    }
  }

  lemma HandleCreated(t: Table, e: KernelEvent, path: string)
    ensures path in Handle(t, e).created <==> Creates(t, e, path) || (path in t.created && !Settles(t, e, path))
  {
    if Ignored !in e.mask && e.wd in t.watches {
      AddTreeKeepsCreated(t, Child(t.watches[e.wd], e.name), e.dir, true);
    }
  }

  /** Event i created the file and nothing since has settled it. */
  ghost predicate CreatedAt(t: Table, events: seq<KernelEvent>, path: string, i: nat) {
    && i < |events| && Creates(HandleAll(t, events[..i]), events[i], path)
    && Unsettled(t, events, path, i + 1)
  }

  lemma UnsettledLast(t: Table, events: seq<KernelEvent>, path: string, from: nat)
    requires events != [] && from < |events|
    ensures var n := |events| - 1;
            Unsettled(t, events, path, from) <==>
            Unsettled(t, events[..n], path, from) && !Settles(HandleAll(t, events[..n]), events[n], path)
  {
    var n := |events| - 1;
    assert forall j | 0 <= j < n :: events[..n][..j] == events[..j] && events[..n][j] == events[j];
  }

  lemma CreatedAtLast(t: Table, events: seq<KernelEvent>, path: string, i: nat)
    requires events != [] && i < |events| - 1
    ensures var n := |events| - 1;
            CreatedAt(t, events, path, i) <==>
            CreatedAt(t, events[..n], path, i) && !Settles(HandleAll(t, events[..n]), events[n], path)
  {
    assert events[..|events| - 1][..i] == events[..i];
    UnsettledLast(t, events, path, i + 1);
  }

  ghost predicate Created(t: Table, events: seq<KernelEvent>, path: string) {
    exists i: nat :: CreatedAt(t, events, path, i)
  }

  /** A creation that still counts is the last event, or counted before it and is not settled by it. */
  lemma CreatedBefore(t: Table, events: seq<KernelEvent>, path: string)
    requires events != [] && Created(t, events, path)
    ensures var n := |events| - 1;
            var mid := HandleAll(t, events[..n]);
            Creates(mid, events[n], path) || (Created(t, events[..n], path) && !Settles(mid, events[n], path))
  {
    var i: nat :| CreatedAt(t, events, path, i);
    if i < |events| - 1 {
      CreatedAtLast(t, events, path, i);
    }
  }

  lemma CreatedStill(t: Table, events: seq<KernelEvent>, path: string)
    requires events != [] && Created(t, events[..|events| - 1], path)
    requires !Settles(HandleAll(t, events[..|events| - 1]), events[|events| - 1], path)
    ensures Created(t, events, path)
  {
    var i: nat :| CreatedAt(t, events[..|events| - 1], path, i);
    CreatedAtLast(t, events, path, i);
  }

  lemma CreatedNow(t: Table, events: seq<KernelEvent>, path: string)
    requires events != [] && Creates(HandleAll(t, events[..|events| - 1]), events[|events| - 1], path)
    ensures Created(t, events, path)
  {
    assert CreatedAt(t, events, path, |events| - 1);
  }

  lemma CreatedOneMore(t: Table, events: seq<KernelEvent>, path: string)
    requires events != []
    ensures var n := |events| - 1;
            var mid := HandleAll(t, events[..n]);
            Created(t, events, path) <==>
            Creates(mid, events[n], path) || (Created(t, events[..n], path) && !Settles(mid, events[n], path))
  {
    var n := |events| - 1;
    var mid := HandleAll(t, events[..n]);
    if Created(t, events, path) {
      CreatedBefore(t, events, path);
    }
    if Creates(mid, events[n], path) {
      CreatedNow(t, events, path);
    } else if Created(t, events[..n], path) && !Settles(mid, events[n], path) {
      CreatedStill(t, events, path);
    }
  }

  /** A file counts as new exactly when it was created and its creation has not settled since. */
  lemma {:induction false} CreatedExactly(t: Table, events: seq<KernelEvent>, path: string)
    ensures path in HandleAll(t, events).created <==>
            (path in t.created && Unsettled(t, events, path, 0)) || Created(t, events, path)
  {
    if events != [] {
      var n := |events| - 1;
      CreatedExactly(t, events[..n], path);
      HandleCreated(HandleAll(t, events[..n]), events[n], path);
      UnsettledLast(t, events, path, 0);
      CreatedOneMore(t, events, path);
    }
  }

  // ---- What each event notes ----

  const NOTHING := Table(map[], {}, [])

  /** A file whose writing ends is noted as added if it counts as new, and as modified otherwise. */
  lemma ClosedWriteNoted(events: seq<KernelEvent>, e: KernelEvent, path: string)
    requires Target(HandleAll(NOTHING, events), e) == Some(path)
    requires CloseWrite in e.mask && Create !in e.mask && MovedTo !in e.mask
    ensures var t := HandleAll(NOTHING, events);
            Handle(t, e).notes == t.notes + [(path, if Created(NOTHING, events, path) then Added else Modified)]
  {
    CreatedExactly(NOTHING, events, path);
  }

  /** A file moved in is noted as added, one deleted or moved out as removed; a creation says nothing yet. */
  lemma OtherChangesNoted(t: Table, e: KernelEvent, path: string)
    requires Target(t, e) == Some(path)
    ensures MovedTo in e.mask ==> Handle(t, e).notes == t.notes + [(path, Added)]
    ensures MovedTo !in e.mask && Create in e.mask ==> Handle(t, e).notes == t.notes
    ensures MovedTo !in e.mask && Create !in e.mask && CloseWrite !in e.mask ==>
              Handle(t, e).notes ==
              t.notes + if Delete in e.mask || MovedFrom in e.mask then [(path, Removed)] else []
    ensures Handle(t, e).watches == t.watches
  {
    Assoc(t.notes, [], []);
  }

  /** An event that concerns no file notes nothing, but for what is found in a directory that appears. */
  lemma NoFileNotNoted(t: Table, e: KernelEvent)
    requires Target(t, e) == None
    ensures var after, appears := Handle(t, e), Create in e.mask || MovedTo in e.mask;
            if Ignored in e.mask then after == t.(watches := t.watches - {e.wd})
            else if e.wd in t.watches && e.name != "" && appears
            then after == AddTree(t, Child(t.watches[e.wd], e.name), e.dir, true)
            else after == t
  {}

  // ---- What is found in a directory ----

  /** The file p is in the directory at `path` or in one below it that can be watched, by no links. */
  ghost predicate Lists(path: string, dir: Dir, p: string)
    decreases dir, 0
  {
    dir.wd >= 0 && ListsIn(path, dir.entries, p)
  }

  ghost predicate ListsIn(path: string, entries: seq<Entry>, p: string)
    decreases entries, |entries|
  {
    entries != [] && (ListsAs(path, entries[0], p) || ListsIn(path, entries[1..], p))
  }

  ghost predicate ListsAs(path: string, entry: Entry, p: string)
    decreases entry
  {
    match entry
    case Regular(name) => p == Child(path, name)
    case Folder(name, dir) => Lists(Child(path, name), dir, p)
    case _ => false
  }

  /** The directory at `path`, or one below it, is watched as wd under the path q. */
  ghost predicate Watches(path: string, dir: Dir, wd: int, q: string)
    decreases dir, 0
  {
    dir.wd >= 0 && ((wd == dir.wd && q == path) || WatchesIn(path, dir.entries, wd, q))
  }

  ghost predicate WatchesIn(path: string, entries: seq<Entry>, wd: int, q: string)
    decreases entries, |entries|
  {
    && entries != []
    && ((entries[0].Folder? && Watches(Child(path, entries[0].name), entries[0].dir, wd, q)) ||
        WatchesIn(path, entries[1..], wd, q))
  }

  /** From t to after, additions were noted for p, if it says so, and for no other reason. */
  ghost predicate Notes(t: Table, after: Table, p: string, noted: bool) {
    && t.notes <= after.notes
    && ((p, Added) in after.notes[|t.notes|..] <==> noted)
    && (p, Modified) !in after.notes[|t.notes|..] && (p, Removed) !in after.notes[|t.notes|..]
  }

  lemma NotesJoin(t: Table, mid: Table, after: Table, p: string, a: bool, b: bool)
    requires Notes(t, mid, p, a) && Notes(mid, after, p, b)
    ensures Notes(t, after, p, a || b)
  {
    assert after.notes[|t.notes|..] == mid.notes[|t.notes|..] + after.notes[|mid.notes|..];
  }

  /** Watching a tree notes every file in it as added when asked to, and nothing else. */
  lemma AddTreeNotes(t: Table, path: string, dir: Dir, report: bool, p: string)
    ensures Notes(t, AddTree(t, path, dir, report), p, report && Lists(path, dir, p))
    decreases dir, 0
  {
    if dir.wd >= 0 {
      var watched := t.(watches := t.watches[dir.wd := path]);
      AddEntriesNotes(watched, path, dir.entries, report, p);
    }
  }

  lemma AddEntriesNotes(t: Table, path: string, entries: seq<Entry>, report: bool, p: string)
    ensures Notes(t, AddEntries(t, path, entries, report), p, report && ListsIn(path, entries, p))
    decreases entries, |entries|
  {
    if entries != [] {
      var first := match entries[0]
        case Folder(name, dir) => AddTree(t, Child(path, name), dir, report)
        case Regular(name) => if report then t.(notes := t.notes + [(Child(path, name), Added)]) else t
        case _ => t;
      if entries[0].Folder? {
        AddTreeNotes(t, Child(path, entries[0].name), entries[0].dir, report, p);
      }
      var here := report && ListsAs(path, entries[0], p);
      assert Notes(t, first, p, here);
      AddEntriesNotes(first, path, entries[1..], report, p);
      NotesJoin(t, first, AddEntries(t, path, entries, report), p, here, report && ListsIn(path, entries[1..], p));
    }
  }

  /** And watches every directory in it, each under its own path, and no other. */
  lemma AddTreeWatches(t: Table, path: string, dir: Dir, report: bool, wd: int)
    ensures var after := AddTree(t, path, dir, report).watches;
            && (wd in t.watches ==> wd in after)
            && (forall q | Watches(path, dir, wd, q) :: wd in after)
            && (wd in after ==> (wd in t.watches && after[wd] == t.watches[wd]) || Watches(path, dir, wd, after[wd]))
    decreases dir, 0
  {
    if dir.wd >= 0 {
      AddEntriesWatches(t.(watches := t.watches[dir.wd := path]), path, dir.entries, report, wd);
    }
  }

  lemma AddEntriesWatches(t: Table, path: string, entries: seq<Entry>, report: bool, wd: int)
    ensures var after := AddEntries(t, path, entries, report).watches;
            && (wd in t.watches ==> wd in after)
            && (forall q | WatchesIn(path, entries, wd, q) :: wd in after)
            && (wd in after ==>
                  (wd in t.watches && after[wd] == t.watches[wd]) || WatchesIn(path, entries, wd, after[wd]))
    decreases entries, |entries|
  {
    if entries != [] {
      var first := match entries[0]
        case Folder(name, dir) => AddTree(t, Child(path, name), dir, report)
        case Regular(name) => if report then t.(notes := t.notes + [(Child(path, name), Added)]) else t
        case _ => t;
      if entries[0].Folder? {
        AddTreeWatches(t, Child(path, entries[0].name), entries[0].dir, report, wd);
      }
      AddEntriesWatches(first, path, entries[1..], report, wd);
    }
  }

  // ---- The watcher ----

  lemma {:induction false} NoteAllConcat(s: State, at: Time, a: seq<(string, Change)>, b: seq<(string, Change)>)
    ensures NoteAll(s, at, a + b) == NoteAll(NoteAll(s, at, a), at, b)
  {
    if b == [] {
      assert a + b == a;
    } else {
      assert (a + b)[..|a + b| - 1] == a + b[..|b| - 1];
      NoteAllConcat(s, at, a, b[..|b| - 1]);
    }
  }

  lemma NotedOn(was: State, before: seq<(string, Change)>, mid: State, middle: seq<(string, Change)>,
                now: State, after: seq<(string, Change)>, at: Time)
    requires before <= middle <= after
    requires mid == NoteAll(was, at, middle[|before|..]) && now == NoteAll(mid, at, after[|middle|..])
    ensures now == NoteAll(was, at, after[|before|..])
  {
    NoteAllConcat(was, at, middle[|before|..], after[|middle|..]);
    assert after[|before|..] == middle[|before|..] + after[|middle|..];
  }

  class FileWatcher {
    var pending: map<string, Change>
    var deadline: Time
    var timeout: Time
    var listening: bool
    var delivered: seq<Delivery>
    var watches: map<int, string>
    var created: set<string>
    ghost var notes: seq<(string, Change)>

    function Now(): State
      reads this
    {
      State(pending, deadline, timeout, listening, delivered)
    }

    ghost function Tables(): Table
      reads this
    {
      Table(watches, created, notes)
    }

    /** Everything noted since `before` reached the pending table in order, at this time. */
    ghost predicate Noticed(was: State, before: seq<(string, Change)>, at: Time)
      reads this
    {
      before <= notes && Now() == NoteAll(was, at, notes[|before|..])
    }

    constructor ()
      ensures Now() == START && Tables() == Table(map[], {}, [])
    {
      pending, deadline, timeout, listening, delivered := map[], 0, 10000, false, [];
      watches, created, notes := map[], {}, [];
    }

    method OnFile(timeout: Time, listening: bool)
      modifies this
      ensures Now() == Step(old(Now()), Configured(timeout, listening)) && Tables() == old(Tables())
    {
      this.timeout, this.listening := timeout, listening;
    }

    method Notify(at: Time, path: string, change: Change)
      modifies `pending, `deadline, `notes
      ensures Now() == Note(old(Now()), at, path, change) && notes == old(notes) + [(path, change)]
      ensures Noticed(old(Now()), old(notes), at)
    {
      if path !in pending {
        pending := pending[path := change];
      } else {
        var previous := pending[path];
        if previous == Added && change == Modified {
          // What is reported stays an addition.
        } else if previous == Removed && change == Added {
          pending := pending[path := Modified];
        } else {
          pending := pending[path := change];
        }
      }
      deadline := at + timeout;
      notes := notes + [(path, change)];
      assert NoteAll(old(Now()), at, []) == old(Now());
      assert notes[|old(notes)|..] == [(path, change)] && [(path, change)][..0] == [];
    }

    method FlushIfQuiet(at: Time)
      modifies `pending, `delivered
      ensures Now() == Poll(old(Now()), at)
    {
      if pending == map[] || at < deadline {
        return;
      }
      var ready := pending;
      pending := map[];
      if listening {
        delivered := delivered + [Delivery(at, ready)];
      }
    }

    method AddWatchTree(at: Time, path: string, dir: Dir, report: bool)
      modifies this
      ensures Tables() == AddTree(old(Tables()), path, dir, report) && Noticed(old(Now()), old(notes), at)
      decreases dir, 0
    {
      assert NoteAll(Now(), at, []) == Now();
      if dir.wd >= 0 {
        watches := watches[dir.wd := path];
        AddWatchEntries(at, path, dir.entries, report);
      }
    }

    method AddWatchEntries(at: Time, path: string, entries: seq<Entry>, report: bool)
      modifies this
      ensures Tables() == AddEntries(old(Tables()), path, entries, report) && Noticed(old(Now()), old(notes), at)
      decreases entries, |entries|
    {
      assert NoteAll(Now(), at, []) == Now();
      if entries == [] {
        return;
      }
      match entries[0] {
        case Folder(name, dir) => AddWatchTree(at, Child(path, name), dir, report);
        case Regular(name) =>
          if report {
            Notify(at, Child(path, name), Added);
          }
        case _ =>
      }
      ghost var mid, middle := Now(), notes;
      AddWatchEntries(at, path, entries[1..], report);
      NotedOn(old(Now()), old(notes), mid, middle, Now(), notes, at);
    }

    method HandleEvents(at: Time, events: seq<KernelEvent>)
      modifies this
      ensures Tables() == HandleAll(old(Tables()), events) && Noticed(old(Now()), old(notes), at)
    {
      assert NoteAll(Now(), at, []) == Now();
      for i := 0 to |events|
        invariant Tables() == HandleAll(old(Tables()), events[..i]) && Noticed(old(Now()), old(notes), at)
      {
        assert events[..i + 1][..i] == events[..i];
        ghost var mid, middle := Now(), notes;
        HandleEvent(at, events[i]);
        NotedOn(old(Now()), old(notes), mid, middle, Now(), notes, at);
      }
      assert events[..|events|] == events;
    }

    method HandleEvent(at: Time, e: KernelEvent)
      modifies this
      ensures Tables() == Handle(old(Tables()), e) && Noticed(old(Now()), old(notes), at)
    {
      assert NoteAll(Now(), at, []) == Now();
      if Ignored in e.mask {
        watches := watches - {e.wd};
        return;
      }
      if e.wd !in watches || e.name == "" {
        return;
      }
      var path := Child(watches[e.wd], e.name);
      var isDir := IsDir in e.mask;
      if Create in e.mask || MovedTo in e.mask {
        if isDir {
          AddWatchTree(at, path, e.dir, true);
        } else if MovedTo in e.mask {
          Notify(at, path, Added);
        } else {
          created := created + {path};
        }
      } else if CloseWrite in e.mask {
        if !isDir {
          var wasNew := path in created;
          created := created - {path};
          Notify(at, path, if wasNew then Added else Modified);
        }
      } else if Delete in e.mask || MovedFrom in e.mask {
        if !isDir {
          created := created - {path};
          Notify(at, path, Removed);
        }
      }
    }
  }
}
