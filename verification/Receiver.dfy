/** The receiving side: the deque of accepted files of each sender and room (src/WebRTCClient.cpp). */
module Receiver {
  import opened Wrappers
  import opened Files
  import opened Messages
  import opened Paths
  import Places
  import Crc

  datatype Key = Key(peer: string, room: string)

  datatype Stream = Unopened | Open(written: Bytes)

  /** A file accepted from a sender. */
  datatype Incoming = Incoming(destination: Path, expectedSize: int, stream: Stream)

  /** What locking and opening a destination comes to, as the file system stands. */
  datatype Outcome = LockFails | OpenFails | Opens
  type Env = Path -> Outcome

  datatype Fate = Complete | Oversized | WriteFailed | NotLocked | NotOpened

  /** A file that left the deque: what was written to it, and how it ended. */
  datatype Left = Left(file: Incoming, content: Bytes, fate: Fate)

  datatype Started = Started(queue: seq<Incoming>, left: seq<Left>)

  /** Opens the first file that can be opened and has bytes to come; all before it leave the deque. */
  function StartNext(queue: seq<Incoming>, env: Env): Started {
    if queue == [] || queue[0].stream.Open? then Started(queue, []) else
    var next := queue[0];
    var outcome := env(next.destination);
    if outcome == Opens && next.expectedSize != 0 then
      Started([next.(stream := Open([]))] + queue[1..], [])
    else
      var fate := if outcome == LockFails then NotLocked else if outcome == OpenFails then NotOpened else Complete;
      var rest := StartNext(queue[1..], env);
      Started(rest.queue, [Left(next, [], fate)] + rest.left)
  }

  /** What is given up is everything before the first file that has bytes to come and opens, each for its own reason. */
  lemma {:induction false} StartNextFates(queue: seq<Incoming>, env: Env)
    requires forall i | 0 <= i < |queue| :: queue[i].stream.Unopened?
    ensures var r := StartNext(queue, env);
            var n := |r.left|;
            && n + |r.queue| == |queue|
            && (forall i | 0 <= i < n ::
                  && r.left[i].file == queue[i] && r.left[i].content == []
                  && (r.left[i].fate == NotLocked <==> env(queue[i].destination) == LockFails)
                  && (r.left[i].fate == NotOpened <==> env(queue[i].destination) == OpenFails)
                  && (r.left[i].fate == Complete <==> env(queue[i].destination) == Opens && queue[i].expectedSize == 0))
            && (n < |queue| ==>
                  && env(queue[n].destination) == Opens && queue[n].expectedSize != 0
                  && r.queue == [queue[n].(stream := Open([]))] + queue[n + 1..])
  {
    if queue != [] && !(env(queue[0].destination) == Opens && queue[0].expectedSize != 0) {
      StartNextFates(queue[1..], env);
      var r, rest := StartNext(queue, env), StartNext(queue[1..], env);
      assert forall i | 1 <= i < |r.left| :: r.left[i] == rest.left[i - 1] && queue[i] == queue[1..][i - 1];
    }
  }

  datatype Inbox = Inbox(queues: map<Key, seq<Incoming>>, left: map<Key, seq<Left>>)

  const EMPTY := Inbox(map[], map[])

  function Queue(s: Inbox, key: Key): seq<Incoming> {
    if key in s.queues then s.queues[key] else []
  }

  function LeftOf(s: Inbox, key: Key): seq<Left> {
    if key in s.left then s.left[key] else []
  }

  /** A key whose deque is empty has no entry in the table. */
  function Store(s: Inbox, key: Key, queue: seq<Incoming>, left: seq<Left>): Inbox {
    Inbox(if queue == [] then s.queues - {key} else s.queues[key := queue],
          if left == [] then s.left else s.left[key := LeftOf(s, key) + left])
  }

  // ---- What a deque does with a new file and with a chunk ----

  function Enqueue(queue: seq<Incoming>, file: Incoming, env: Env): Started {
    if |queue| == 0 then StartNext([file], env) else Started(queue + [file], [])
  }

  function Write(queue: seq<Incoming>, bytes: Bytes, writes: bool, env: Env): Started {
    if queue == [] || queue[0].stream.Unopened? then Started(queue, []) else
    var file := queue[0];
    var written := file.stream.written + bytes;
    if writes && |written| < file.expectedSize then Started([file.(stream := Open(written))] + queue[1..], []) else
    var fate := if !writes then WriteFailed else if |written| == file.expectedSize then Complete else Oversized;
    var rest := StartNext(queue[1..], env);
    Started(rest.queue, [Left(file, written, fate)] + rest.left)
  }

  /** A chunk leaves its file at the front exactly if it was written and leaves it short; else the file is closed. */
  lemma ClosedForReason(queue: seq<Incoming>, bytes: Bytes, writes: bool, env: Env)
    requires queue != [] && queue[0].stream.Open?
    ensures var r, all := Write(queue, bytes, writes, env), queue[0].stream.written + bytes;
            var size := queue[0].expectedSize;
            && (r.left == [] <==> writes && |all| < size)
            && (r.left == [] ==> r.queue == [queue[0].(stream := Open(all))] + queue[1..])
            && (r.left != [] ==>
                  && r.left[0].file == queue[0] && r.left[0].content == all
                  && (r.left[0].fate == Complete <==> writes && |all| == size)
                  && (r.left[0].fate == Oversized <==> writes && |all| > size)
                  && (r.left[0].fate == WriteFailed <==> !writes)
                  && Started(r.queue, r.left[1..]) == StartNext(queue[1..], env))
  {}

  function Accept(s: Inbox, key: Key, file: Incoming, env: Env): Inbox {
    var r := Enqueue(Queue(s, key), file, env);
    Store(s, key, r.queue, r.left)
  }

  function Chunk(s: Inbox, key: Key, bytes: Bytes, writes: bool, env: Env): Inbox {
    var r := Write(Queue(s, key), bytes, writes, env);
    if r.left == [] && r.queue == Queue(s, key) then s else Store(s, key, r.queue, r.left)
  }

  // ---- The deque invariant ----

  /** The front is open and short of its size; everything behind it waits. */
  ghost predicate QueueOk(queue: seq<Incoming>) {
    && queue != [] && queue[0].stream.Open? && |queue[0].stream.written| < queue[0].expectedSize
    && forall i | 1 <= i < |queue| :: queue[i].stream.Unopened? && queue[i].expectedSize >= 0
  }

  ghost predicate InboxOk(s: Inbox) {
    forall k | k in s.queues :: QueueOk(s.queues[k])
  }

  lemma {:induction false} StartNextOk(queue: seq<Incoming>, env: Env)
    requires forall i | 0 <= i < |queue| :: queue[i].stream.Unopened? && queue[i].expectedSize >= 0
    ensures StartNext(queue, env).queue == [] || QueueOk(StartNext(queue, env).queue)
    ensures |StartNext(queue, env).queue| + |StartNext(queue, env).left| == |queue|
    ensures forall i | 0 <= i < |StartNext(queue, env).left| :: StartNext(queue, env).left[i].file == queue[i]
  {
    if queue != [] && !(env(queue[0].destination) == Opens && queue[0].expectedSize != 0) {
      StartNextOk(queue[1..], env);
    }
  }

  lemma ChunkKeepsInbox(s: Inbox, key: Key, bytes: Bytes, writes: bool, env: Env)
    requires InboxOk(s)
    ensures InboxOk(Chunk(s, key, bytes, writes, env))
    ensures forall k | k != key :: Queue(Chunk(s, key, bytes, writes, env), k) == Queue(s, k)
  {
    if key in s.queues {
      StartNextOk(s.queues[key][1..], env);
    }
  }

  /**
   * Accepting a file keeps the deques in order exactly when its offered size is not negative, or when it cannot be
   * opened and has no deque to wait in.
   */
  lemma AcceptKeepsInbox(s: Inbox, key: Key, file: Incoming, env: Env)
    requires InboxOk(s) && file.stream.Unopened?
    ensures InboxOk(Accept(s, key, file, env)) <==>
            file.expectedSize >= 0 || (key !in s.queues && env(file.destination) != Opens)
    ensures forall k | k != key :: Queue(Accept(s, key, file, env), k) == Queue(s, k)
  {
    var after := Accept(s, key, file, env);
    if key in s.queues {
      var q := s.queues[key] + [file];
      assert after.queues[key] == q && q[|q| - 1] == file;
      if file.expectedSize >= 0 {
        assert QueueOk(q);
      }
    } else {
      assert [file][1..] == [];
      assert StartNext([], env) == Started([], []);
      if file.expectedSize != 0 && env(file.destination) == Opens {
        assert after.queues[key] == [file.(stream := Open([]))] + [];
      }
    }
  }

  datatype Event =
    | Offered(key: Key, destination: Path, size: nat, env: Env)
    | Arrived(key: Key, bytes: Bytes, writes: bool, env: Env)

  function Step(s: Inbox, e: Event): Inbox {
    match e
    case Offered(key, destination, size, env) => Accept(s, key, Incoming(destination, size, Unopened), env)
    case Arrived(key, bytes, writes, env) => Chunk(s, key, bytes, writes, env)
  }

  function Run(events: seq<Event>): Inbox {
    if events == [] then EMPTY else Step(Run(events[..|events| - 1]), events[|events| - 1])
  }

  /** After any offers and any chunks, of any size and with any failures, every deque is in order. */
  lemma {:induction false} EveryDequeInOrder(events: seq<Event>)
    ensures InboxOk(Run(events))
  {
    if events != [] {
      var s := Run(events[..|events| - 1]);
      EveryDequeInOrder(events[..|events| - 1]);
      match events[|events| - 1]
      case Offered(key, destination, size, env) => AcceptKeepsInbox(s, key, Incoming(destination, size, Unopened), env);
      case Arrived(key, bytes, writes, env) => ChunkKeepsInbox(s, key, bytes, writes, env);
    }
  }

  // ---- The answer to an offer ----

  datatype Verdict = Ignored | Refused | Taken(key: Key, file: Incoming)

  /** prepared: whether the parent directory could be made; existing: the regular file already there, if any. */
  function Judge(directory: string, doc: Doc, prepared: bool, existing: Option<Bytes>): Verdict {
    if doc.peer.None? || doc.room.None? || doc.file.None? then Ignored else
    var file := doc.file.value;
    var destination := Destination(directory, file.name);
    if destination.None? || !prepared then Ignored
    else if file.crc.Some? && existing.Some? && Crc.Crc32(existing.value) == file.crc.value then Refused
    else Taken(Key(doc.peer.value, doc.room.value), Incoming(destination.value, file.size, Unopened))
  }

  /** A file identical to the one offered is refused as a duplicate. */
  lemma DuplicateRefused(directory: string, doc: Doc, content: Bytes)
    requires doc.peer.Some? && doc.room.Some? && doc.file.Some? && Destination(directory, doc.file.value.name).Some?
    requires doc.file.value.crc == Some(Crc.Crc32(content))
    ensures Judge(directory, doc, true, Some(content)) == Refused
  {}

  /** A file of the same size changed only inside four consecutive bytes is never taken for a duplicate. */
  lemma SmallChangeNotRefused(directory: string, doc: Doc, prepared: bool, content: Bytes, existing: Bytes, i: nat,
                              j: nat)
    requires doc.file.Some? && doc.file.value.crc == Some(Crc.Crc32(content))
    requires |content| == |existing| && content != existing && i <= j <= |content| && j - i <= 4
    requires content[..i] == existing[..i] && content[j..] == existing[j..]
    ensures Judge(directory, doc, prepared, Some(existing)) != Refused
  {
    Crc.FourByteChangeDetected(content, existing, i, j);
  }

  // ---- The receiver ----

  /** The path under which the directory watcher will report a destination. */
  function Reported(cwd: Path, destination: Path): Path {
    Normal(Absolute(cwd, destination))
  }

  /**
   * What is reported of a path is the place it leads to, with or without the mark of a trailing slash: two paths are
   * reported alike only if they lead to the same place, and always if they do and neither is so marked.
   */
  lemma ReportedAlike(cwd: Path, p: Path, q: Path)
    requires cwd.root && WellFormed(cwd) && WellFormed(p) && WellFormed(q)
    ensures var a, b := Reported(cwd, p).names, Reported(cwd, q).names;
            var same := Position([], Absolute(cwd, p).names) == Position([], Absolute(cwd, q).names);
            && (Reported(cwd, p) == Reported(cwd, q) ==> same)
            && (same && a == Base(a) && b == Base(b) ==> Reported(cwd, p) == Reported(cwd, q))
  {
    AbsoluteWellFormed(cwd, p);
    AbsoluteWellFormed(cwd, q);
    Places.NormalIsPlace(Absolute(cwd, p));
    Places.NormalIsPlace(Absolute(cwd, q));
    NormalForm(Absolute(cwd, p));
    NormalForm(Absolute(cwd, q));
  }

  /** The destinations that must not be sent back: those of files that were opened and are finished. */
  ghost function Finished(cwd: Path, left: seq<Left>): set<Path> {
    set l | l in left && l.fate != NotLocked && l.fate != NotOpened :: Reported(cwd, l.file.destination)
  }

  lemma FinishedOneMore(cwd: Path, left: seq<Left>, l: Left)
    ensures Finished(cwd, left + [l]) == Finished(cwd, left) +
            if l.fate == NotLocked || l.fate == NotOpened then {} else {Reported(cwd, l.file.destination)}
  {
    assert forall m :: m in left + [l] <==> m in left || m == l;
  }

  /** Of the files that starting gives up it records those that could be opened, which are those without bytes. */
  lemma StartRecords(cwd: Path, queue: seq<Incoming>, env: Env, p: Path)
    requires forall i | 0 <= i < |queue| :: queue[i].stream.Unopened?
    ensures var gone := StartNext(queue, env).left;
            p in Finished(cwd, gone) <==>
            exists i :: 0 <= i < |gone| && i < |queue| && env(queue[i].destination) == Opens &&
                        Reported(cwd, queue[i].destination) == p
  {
    StartNextFates(queue, env);
    var gone := StartNext(queue, env).left;
    if p in Finished(cwd, gone) {
      var l :| l in gone && l.fate != NotLocked && l.fate != NotOpened && Reported(cwd, l.file.destination) == p;
      var i :| 0 <= i < |gone| && gone[i] == l;
      assert gone[i].file == queue[i];
    }
    if i :| 0 <= i < |gone| && i < |queue| && env(queue[i].destination) == Opens &&
            Reported(cwd, queue[i].destination) == p {
      assert gone[i] in gone && gone[i].file == queue[i];
    }
  }

  /** A chunk records its file exactly if it closes it, for whatever reason. */
  lemma ChunkRecords(cwd: Path, queue: seq<Incoming>, bytes: Bytes, writes: bool, env: Env)
    requires queue != [] && queue[0].stream.Open?
    ensures Finished(cwd, Write(queue, bytes, writes, env).left) ==
            if writes && |queue[0].stream.written + bytes| < queue[0].expectedSize then {}
            else {Reported(cwd, queue[0].destination)} + Finished(cwd, StartNext(queue[1..], env).left)
  {
    ClosedForReason(queue, bytes, writes, env);
    var gone := Write(queue, bytes, writes, env).left;
    assert gone != [] ==> gone == [gone[0]] + gone[1..];
  }

  /** Starting `files` has come down to starting `queue`, after `gone` left. */
  ghost predicate StartsAs(files: seq<Incoming>, env: Env, queue: seq<Incoming>, gone: seq<Left>) {
    var rest := StartNext(queue, env);
    StartNext(files, env) == Started(rest.queue, gone + rest.left)
  }

  lemma StartStep(files: seq<Incoming>, env: Env, queue: seq<Incoming>, gone: seq<Left>, fate: Fate)
    requires StartsAs(files, env, queue, gone) && queue != [] && queue[0].stream.Unopened?
    requires !(env(queue[0].destination) == Opens && queue[0].expectedSize != 0)
    requires fate == match env(queue[0].destination)
               case LockFails => NotLocked
               case OpenFails => NotOpened
               case Opens => Complete
    ensures StartsAs(files, env, queue[1..], gone + [Left(queue[0], [], fate)])
  {
    var rest := StartNext(queue[1..], env);
    var l := Left(queue[0], [], fate);
    assert gone + ([l] + rest.left) == gone + [l] + rest.left;
  }

  class ReceivingClient {
    const directory: string
    const cwd: Path
    var incomingFiles: map<Key, seq<Incoming>>
    var receivedPaths: set<Path>
    var running: bool
    ghost var left: map<Key, seq<Left>>

    ghost function Now(): Inbox
      reads this
    {
      Inbox(incomingFiles, left)
    }

    constructor (directory: string, cwd: Path)
      ensures Now() == EMPTY && receivedPaths == {} && !running
      ensures this.directory == directory && this.cwd == cwd
    {
      this.directory, this.cwd := directory, cwd;
      incomingFiles, receivedPaths, running, left := map[], {}, false, map[];
    }

    method StartNextIncoming(files: seq<Incoming>, env: Env) returns (queue: seq<Incoming>, ghost gone: seq<Left>)
      modifies `receivedPaths
      ensures Started(queue, gone) == StartNext(files, env)
      ensures receivedPaths == old(receivedPaths) + Finished(cwd, gone)
    {
      queue, gone := files, [];
      assert [] + StartNext(files, env).left == StartNext(files, env).left;
      while queue != [] && queue[0].stream.Unopened?
        invariant StartsAs(files, env, queue, gone)
        invariant receivedPaths == old(receivedPaths) + Finished(cwd, gone)
        decreases |queue|, queue != [] && queue[0].stream.Unopened?
      {
        var next := queue[0];
        ghost var fate := Complete;
        if env(next.destination) == LockFails {
          fate := NotLocked;
        } else if env(next.destination) == OpenFails {
          fate := NotOpened;
        } else if next.expectedSize == 0 {
          receivedPaths := receivedPaths + {Reported(cwd, next.destination)};
        } else {
          queue := [next.(stream := Open([]))] + queue[1..];
          continue;
        }
        StartStep(files, env, queue, gone, fate);
        FinishedOneMore(cwd, gone, Left(next, [], fate));
        queue, gone := queue[1..], gone + [Left(next, [], fate)];
      }
      assert gone + [] == gone;
    }

    /** Stores a deque after a call, with what left it. */
    method Put(key: Key, queue: seq<Incoming>, ghost gone: seq<Left>)
      modifies `incomingFiles, `left
      ensures Now() == Store(old(Now()), key, queue, gone)
    {
      incomingFiles := if queue == [] then incomingFiles - {key} else incomingFiles[key := queue];
      left := Store(old(Now()), key, queue, gone).left;
    }

    /** Puts an accepted file behind the others of its key, or starts it if it is the only one. */
    method TakeIn(key: Key, incoming: Incoming, env: Env)
      modifies `incomingFiles, `left, `receivedPaths
      ensures Now() == Accept(old(Now()), key, incoming, env)
      ensures receivedPaths == old(receivedPaths) + Finished(cwd, Enqueue(Queue(old(Now()), key), incoming, env).left)
    {
      var queue := if key in incomingFiles then incomingFiles[key] else [];
      queue := queue + [incoming];
      ghost var gone: seq<Left> := [];
      if |queue| == 1 {
        assert queue == [incoming];
        queue, gone := StartNextIncoming(queue, env);
      }
      Put(key, queue, gone);
    }

    /**
     * env: what locking and opening would come to; prepared and existing: the state of the destination's directory
     * and of the destination itself. The result is the message sent back, if any.
     */
    method OnFileOffer(doc: Doc, env: Env, prepared: bool, existing: Option<Bytes>) returns (reply: Option<Doc>)
      modifies this
      ensures match Judge(directory, doc, prepared, existing)
        case Ignored => Now() == old(Now()) && reply == None
        case Refused => Now() == old(Now()) && reply == RejectReply(doc)
        case Taken(key, file) => Now() == Accept(old(Now()), key, file, env) && reply == AcceptReply(doc)
      ensures running == old(running)
      ensures receivedPaths == old(receivedPaths) + match Judge(directory, doc, prepared, existing)
                case Taken(key, file) => Finished(cwd, Enqueue(Queue(old(Now()), key), file, env).left)
                case _ => {}
    {
      if doc.peer.None? || doc.room.None? || doc.file.None? {
        return None;
      }
      var file := doc.file.value;
      var destination := Destination(directory, file.name);
      if destination.None? || !prepared {
        return None;
      }
      if file.crc.Some? && existing.Some? {
        var stream := new InputStream(existing.value);
        var crc := Crc.GetCrc(stream);
        if crc == file.crc.value {
          return RejectReply(doc);
        }
      }
      TakeIn(Key(doc.peer.value, doc.room.value), Incoming(destination.value, file.size, Unopened), env);
      reply := AcceptReply(doc);
    }

    /** Closes the front file of a key, whatever its fate, and starts the next. */
    method FinishFront(key: Key, written: Bytes, ghost fate: Fate, env: Env)
      requires key in incomingFiles && incomingFiles[key] != [] && fate != NotLocked && fate != NotOpened
      modifies `incomingFiles, `left, `receivedPaths
      ensures var queue := old(incomingFiles)[key];
              var rest := StartNext(queue[1..], env);
              var gone := [Left(queue[0], written, fate)] + rest.left;
              Now() == Store(old(Now()), key, rest.queue, gone) &&
              receivedPaths == old(receivedPaths) + Finished(cwd, gone)
    {
      var queue := incomingFiles[key];
      var file := queue[0];
      receivedPaths := receivedPaths + {Reported(cwd, file.destination)};
      ghost var gone;
      queue, gone := StartNextIncoming(queue[1..], env);
      Put(key, queue, [Left(file, written, fate)] + gone);
      assert Finished(cwd, [Left(file, written, fate)] + gone) ==
             {Reported(cwd, file.destination)} + Finished(cwd, gone);
    }

    /** writes: whether the file system took the bytes. */
    method OnIncomingChunk(peer: string, room: string, bytes: Bytes, writes: bool, env: Env)
      modifies this
      ensures Now() == Chunk(old(Now()), Key(peer, room), bytes, writes, env)
      ensures running == (old(running) ||
                var gone := Write(Queue(old(Now()), Key(peer, room)), bytes, writes, env).left;
                gone != [] && gone[0].fate == Complete)
      ensures receivedPaths == old(receivedPaths) +
                Finished(cwd, Write(Queue(old(Now()), Key(peer, room)), bytes, writes, env).left)
    {
      var key := Key(peer, room);
      if key !in incomingFiles || incomingFiles[key] == [] || incomingFiles[key][0].stream.Unopened? {
        return;
      }
      var queue := incomingFiles[key];
      var file := queue[0];
      var written := file.stream.written + bytes;
      var finished, transferComplete := true, false;
      ghost var fate := Oversized;
      if !writes {
        fate := WriteFailed;
      } else if |written| == file.expectedSize {
        transferComplete, fate := true, Complete;
      } else if |written| < file.expectedSize {
        finished := false;
      }
      if !finished {
        Put(key, [file.(stream := Open(written))] + queue[1..], []);
        return;
      }
      FinishFront(key, written, fate, env);
      if transferComplete {
        running := true;
      }
    }

    /** Consumes the record that a path was written by a transfer. */
    method TakeReceivedFile(path: string) returns (taken: bool)
      modifies `receivedPaths
      ensures taken <==> Reported(cwd, Parse(path)) in old(receivedPaths)
      ensures receivedPaths == old(receivedPaths) - {Reported(cwd, Parse(path))}
    {
      taken := Reported(cwd, Parse(path)) in receivedPaths;
      receivedPaths := receivedPaths - {Reported(cwd, Parse(path))};
    }
  }
}
