/**
 * File locks (include/FileLock.hpp), and what they do for a client that receives many files and sends others
 * (src/WebRTCClient.cpp): writers of one file exclude each other and its readers.
 */
module Locks {
  import opened Wrappers
  import opened Files
  import opened Paths
  import opened Receiver

  // ---- flock ----

  /** Tells files apart, whatever path leads to them. */
  type File = nat

  datatype Mode = Shared | Exclusive
  datatype Hold = Hold(file: File, mode: Mode)

  /** A lock is granted when no other open description of the file holds one that conflicts. */
  ghost predicate CanLock<Owner(!new)>(holds: map<Owner, Hold>, file: File, mode: Mode) {
    forall o | o in holds && holds[o].file == file :: mode.Shared? && holds[o].mode.Shared?
  }

  /** Whoever holds a lock exclusively holds it alone. */
  ghost predicate Consistent<Owner(!new)>(holds: map<Owner, Hold>) {
    forall a, b | a in holds && b in holds && a != b && holds[a].file == holds[b].file ::
      holds[a].mode.Shared? && holds[b].mode.Shared?
  }

  lemma GrantKeepsConsistent<Owner(!new)>(holds: map<Owner, Hold>, o: Owner, file: File, mode: Mode)
    requires Consistent(holds) && o !in holds
    ensures Consistent(holds[o := Hold(file, mode)]) <==> CanLock(holds, file, mode)
  {
    var after := holds[o := Hold(file, mode)];
    if !CanLock(holds, file, mode) {
      var p :| p in holds && holds[p].file == file && !(mode.Shared? && holds[p].mode.Shared?);
      assert after[p] == holds[p] && after[o].mode == mode;
    }
  }

  class LockTable {
    var holds: map<nat, Hold>
    var nextFd: nat

    ghost predicate Valid()
      reads this
    {
      Consistent(holds) && forall fd | fd in holds :: fd < nextFd
    }

    constructor ()
      ensures Valid() && holds == map[]
    {
      holds, nextFd := map[], 0;
    }
  }

  /** An advisory lock on a file; the descriptor is None while nothing is locked. */
  class FileLock {
    const table: LockTable
    var fd: Option<nat>

    ghost predicate Valid()
      reads this, table
    {
      table.Valid() && (fd.Some? ==> fd.value in table.holds)
    }

    /** What this lock holds. */
    ghost function Held(): Option<Hold>
      reads this, table
      requires Valid()
    {
      if fd.None? then None else Some(table.holds[fd.value])
    }

    /** What everyone else holds. */
    ghost function Others(): map<nat, Hold>
      reads this, table
    {
      if fd.None? then table.holds else table.holds - {fd.value}
    }

    constructor (table: LockTable)
      requires table.Valid()
      ensures Valid() && this.table == table && Held() == None
    {
      this.table, fd := table, None;
    }

    /**
     * Whatever was held is released first, even if the new lock is then refused. opens: whether the file can be opened;
     * a caller that waits goes on when the lock can be granted.
     */
    method Acquire(file: File, mode: Mode, wait: bool, opens: bool) returns (ok: bool)
      requires Valid() && (wait && opens ==> CanLock(Others(), file, mode))
      modifies this, table
      ensures Valid() && Others() == old(Others())
      ensures ok <==> opens && CanLock(Others(), file, mode)
      ensures Held() == if ok then Some(Hold(file, mode)) else None
    {
      Release();
      if !opens {
        return false;
      }
      var free := Free(file, mode);
      if !free {
        return false;
      }
      var next := table.nextFd;
      GrantKeepsConsistent(table.holds, next, file, mode);
      table.holds, table.nextFd := table.holds[next := Hold(file, mode)], next + 1;
      fd := Some(next);
      assert Others() == old(Others());
      ok := true;
    }

    /** The kernel's own check: one look at every lock there is. */
    method Free(file: File, mode: Mode) returns (free: bool)
      ensures free <==> CanLock(table.holds, file, mode)
    {
      var todo := table.holds.Keys;
      while todo != {}
        invariant todo <= table.holds.Keys
        invariant forall o | o in table.holds && o !in todo && table.holds[o].file == file ::
                    mode.Shared? && table.holds[o].mode.Shared?
        decreases todo
      {
        var o :| o in todo;
        if table.holds[o].file == file && !(mode.Shared? && table.holds[o].mode.Shared?) {
          return false;
        }
        todo := todo - {o};
      }
      free := true;
    }

    method Release()
      requires Valid()
      modifies this, table
      ensures Valid() && Held() == None && Others() == old(Others()) == table.holds
    {
      if fd.Some? {
        table.holds := table.holds - {fd.value};
        fd := None;
      }
    }

    /** Move assignment: this lock gives up what it holds and takes over what the other holds. */
    method TakeOver(other: FileLock)
      requires Valid() && other.Valid() && other.table == table
      requires other != this && fd.Some? && other.fd.Some? ==> fd.value != other.fd.value
      modifies this, other, table
      ensures Valid() && other.Valid() && Held() == old(other.Held()) && (other != this ==> other.Held() == None)
      ensures table.holds == if other != this && old(fd).Some?
                             then old(table.holds) - {old(fd).value} else old(table.holds)
    {
      if other != this {
        Release();
        fd := other.fd;
        other.fd := None;
      }
    }
  }

  /** A file input that holds a shared lock from before it is opened until after it is closed. */
  class LockedIfstream {
    const lock: FileLock
    const stream: InputStream

    ghost predicate Valid()
      reads this, lock, lock.table, stream
    {
      lock.Valid() && stream.Valid()
    }

    /** Waits for the lock. */
    constructor (table: LockTable, file: File, content: Bytes, opens: bool)
      requires table.Valid() && (opens ==> CanLock(table.holds, file, Shared))
      modifies table
      ensures Valid() && fresh(lock) && fresh(stream) && lock.table == table && stream.content == content &&
              stream.pos == 0
      ensures lock.Held() == if opens then Some(Hold(file, Shared)) else None
      ensures lock.Others() == old(table.holds)
    {
      var l := new FileLock(table);
      var ok := l.Acquire(file, Shared, true, opens);
      var s := new InputStream(content);
      lock, stream := l, s;
    }

    method Destroy()
      requires Valid()
      modifies lock, lock.table
      ensures lock.Valid() && lock.Held() == None && lock.table.holds == old(lock.Others())
    {
      lock.Release();
    }
  }

  // ---- A client's writers and readers ----

  /** Foreign stands for other programs. */
  datatype Owner = Writer(key: Key) | Reader(worker: nat) | Foreign(n: nat)

  datatype State = State(inbox: Inbox, holds: map<Owner, Hold>)

  const START := State(EMPTY, map[])

  /** What locking and opening a destination comes to with the locks that are held. */
  ghost function EnvOf(holds: map<Owner, Hold>, files: Path -> File, opens: Path -> bool): Env {
    d => if !CanLock(holds, files(d), Exclusive) then LockFails else if opens(d) then Opens else OpenFails
  }

  /** Starting the next file, lock by lock: a file that is given up gives up its lock as well. */
  ghost function StartLocked(queue: seq<Incoming>, me: Owner, holds: map<Owner, Hold>, files: Path -> File,
                             opens: Path -> bool)
    : (Started, map<Owner, Hold>)
  {
    if queue == [] || queue[0].stream.Open? then (Started(queue, []), holds) else
    var next := queue[0];
    var file := files(next.destination);
    if !CanLock(holds, file, Exclusive) then
      var (r, after) := StartLocked(queue[1..], me, holds, files, opens);
      (Started(r.queue, [Left(next, [], NotLocked)] + r.left), after)
    else
      var locked := holds[me := Hold(file, Exclusive)];
      if !opens(next.destination) || next.expectedSize == 0 then
        var (r, after) := StartLocked(queue[1..], me, locked - {me}, files, opens);
        (Started(r.queue, [Left(next, [], if opens(next.destination) then Complete else NotOpened)] + r.left), after)
      else (Started([next.(stream := Open([]))] + queue[1..], []), locked)
  }

  /**
   * Which is what the receiver does when a lock fails exactly while someone else holds the file; and the one lock
   * it ends up with is that of the file it opened.
   */
  lemma {:induction false} StartingHoldsOneLock(queue: seq<Incoming>, me: Owner, holds: map<Owner, Hold>,
                                                files: Path -> File, opens: Path -> bool)
    requires me !in holds && forall i | 0 <= i < |queue| :: queue[i].stream.Unopened?
    ensures var (r, after) := StartLocked(queue, me, holds, files, opens);
            && r == StartNext(queue, EnvOf(holds, files, opens))
            && (r.queue == [] ==> after == holds)
            && (r.queue != [] ==> CanLock(holds, files(r.queue[0].destination), Exclusive)
                                  && after == holds[me := Hold(files(r.queue[0].destination), Exclusive)])
  {
    if queue != [] {
      assert holds[me := Hold(files(queue[0].destination), Exclusive)] - {me} == holds;
      StartingHoldsOneLock(queue[1..], me, holds, files, opens);
    }
  }

  datatype Event =
    | Offered(key: Key, destination: Path, size: nat, opens: Path -> bool)
    | Arrived(key: Key, bytes: Bytes, writes: bool, opens: Path -> bool)
    | ReadingBegun(worker: nat, path: Path)
    | ReadingEnded(worker: nat)
    | ForeignLock(n: nat, file: File, mode: Mode)
    | ForeignRelease(n: nat)

  ghost function AcceptLocked(s: State, key: Key, file: Incoming, files: Path -> File, opens: Path -> bool): State {
    if key in s.inbox.queues then s.(inbox := Store(s.inbox, key, s.inbox.queues[key] + [file], [])) else
    var (r, holds) := StartLocked([file], Writer(key), s.holds, files, opens);
    State(Store(s.inbox, key, r.queue, r.left), holds)
  }

  /** A front file that is finished is closed, and only then its lock is released. */
  ghost function ChunkLocked(s: State, key: Key, bytes: Bytes, writes: bool, files: Path -> File,
                             opens: Path -> bool): State {
    var queue := Queue(s.inbox, key);
    if queue == [] || queue[0].stream.Unopened? then s else
    var file, written := queue[0], queue[0].stream.written + bytes;
    if writes && |written| < file.expectedSize then
      s.(inbox := Store(s.inbox, key, [file.(stream := Open(written))] + queue[1..], []))
    else
      var fate := if !writes then WriteFailed else if |written| == file.expectedSize then Complete else Oversized;
      var (r, holds) := StartLocked(queue[1..], Writer(key), s.holds - {Writer(key)}, files, opens);
      State(Store(s.inbox, key, r.queue, [Left(file, written, fate)] + r.left), holds)
  }

  ghost function Step(s: State, e: Event, files: Path -> File): State {
    match e
    case Offered(key, destination, size, opens) =>
      AcceptLocked(s, key, Incoming(destination, size, Unopened), files, opens)
    case Arrived(key, bytes, writes, opens) => ChunkLocked(s, key, bytes, writes, files, opens)
    case ReadingBegun(worker, path) =>
      if Reader(worker) !in s.holds && CanLock(s.holds, files(path), Shared)
      then s.(holds := s.holds[Reader(worker) := Hold(files(path), Shared)]) else s
    case ReadingEnded(worker) => s.(holds := s.holds - {Reader(worker)})
    case ForeignLock(n, file, mode) =>
      if Foreign(n) !in s.holds && CanLock(s.holds, file, mode)
      then s.(holds := s.holds[Foreign(n) := Hold(file, mode)]) else s
    case ForeignRelease(n) => s.(holds := s.holds - {Foreign(n)})
  }

  ghost function Run(events: seq<Event>, files: Path -> File): State {
    if events == [] then START else Step(Run(events[..|events| - 1], files), events[|events| - 1], files)
  }

  /** A key holds a lock exactly while its front file is open, and it is that file's, exclusively. */
  ghost predicate Guarded(s: State, files: Path -> File) {
    && InboxOk(s.inbox) && Consistent(s.holds)
    && (forall k :: Writer(k) in s.holds <==> k in s.inbox.queues)
    && (forall k | k in s.inbox.queues ::
          s.holds[Writer(k)] == Hold(files(s.inbox.queues[k][0].destination), Exclusive))
  }

  lemma ReleaseKeepsConsistent(holds: map<Owner, Hold>, o: Owner)
    requires Consistent(holds)
    ensures Consistent(holds - {o})
  {}

  /** Storing a deque that was started under its key's lock. */
  lemma StoreGuarded(s: State, key: Key, queue: seq<Incoming>, r: Started, holds: map<Owner, Hold>, files: Path -> File,
                     opens: Path -> bool)
    requires Guarded(s, files) &&
             (forall i | 0 <= i < |queue| :: queue[i].stream.Unopened? && queue[i].expectedSize >= 0)
    requires (r, holds) == StartLocked(queue, Writer(key), s.holds - {Writer(key)}, files, opens)
    ensures Guarded(State(Store(s.inbox, key, r.queue, []), holds), files)
  {
    var free := s.holds - {Writer(key)};
    StartingHoldsOneLock(queue, Writer(key), free, files, opens);
    StartNextOk(queue, EnvOf(free, files, opens));
    ReleaseKeepsConsistent(s.holds, Writer(key));
    if r.queue != [] {
      GrantKeepsConsistent(free, Writer(key), files(r.queue[0].destination), Exclusive);
    }
  }

  lemma AcceptGuarded(s: State, key: Key, file: Incoming, files: Path -> File, opens: Path -> bool)
    requires Guarded(s, files) && file.stream.Unopened? && file.expectedSize >= 0
    ensures Guarded(AcceptLocked(s, key, file, files, opens), files)
    ensures AcceptLocked(s, key, file, files, opens).inbox == Accept(s.inbox, key, file, EnvOf(s.holds, files, opens))
  {
    if key !in s.inbox.queues {
      var (r, holds) := StartLocked([file], Writer(key), s.holds, files, opens);
      assert s.holds - {Writer(key)} == s.holds;
      StartingHoldsOneLock([file], Writer(key), s.holds, files, opens);
      StoreGuarded(s, key, [file], r, holds, files, opens);
    }
  }

  lemma ChunkGuarded(s: State, key: Key, bytes: Bytes, writes: bool, files: Path -> File, opens: Path -> bool)
    requires Guarded(s, files)
    ensures Guarded(ChunkLocked(s, key, bytes, writes, files, opens), files)
    ensures ChunkLocked(s, key, bytes, writes, files, opens).inbox ==
            Chunk(s.inbox, key, bytes, writes, EnvOf(s.holds - {Writer(key)}, files, opens))
  {
    var queue := Queue(s.inbox, key);
    if queue != [] {
      var written := queue[0].stream.written + bytes;
      if !(writes && |written| < queue[0].expectedSize) {
        var free := s.holds - {Writer(key)};
        var (r, holds) := StartLocked(queue[1..], Writer(key), free, files, opens);
        StartingHoldsOneLock(queue[1..], Writer(key), free, files, opens);
        StoreGuarded(s, key, queue[1..], r, holds, files, opens);
      }
    }
  }

  lemma {:induction false} AlwaysGuarded(events: seq<Event>, files: Path -> File)
    ensures Guarded(Run(events, files), files)
  {
    if events != [] {
      var s, e := Run(events[..|events| - 1], files), events[|events| - 1];
      AlwaysGuarded(events[..|events| - 1], files);
      match e
      case Offered(key, destination, size, opens) =>
        AcceptGuarded(s, key, Incoming(destination, size, Unopened), files, opens);
      case Arrived(key, bytes, writes, opens) => ChunkGuarded(s, key, bytes, writes, files, opens);
      case ReadingBegun(worker, path) =>
        if Reader(worker) !in s.holds {
          GrantKeepsConsistent(s.holds, Reader(worker), files(path), Shared);
        }
      case ReadingEnded(worker) => ReleaseKeepsConsistent(s.holds, Reader(worker));
      case ForeignLock(n, file, mode) =>
        if Foreign(n) !in s.holds {
          GrantKeepsConsistent(s.holds, Foreign(n), file, mode);
        }
      case ForeignRelease(n) => ReleaseKeepsConsistent(s.holds, Foreign(n));
    }
  }

  /**
   * In every run, two files being received are never the same file, and neither is a file being received and one that
   * a worker is reading or another program has locked.
   */
  lemma WritersExclude(events: seq<Event>, files: Path -> File, k: Key, o: Owner)
    requires var s := Run(events, files); k in s.inbox.queues && o in s.holds && o != Writer(k)
    ensures var s := Run(events, files);
            s.inbox.queues[k] != [] && s.holds[o].file != files(s.inbox.queues[k][0].destination)
  {
    AlwaysGuarded(events, files);
  }

  /**
   * A file that is accepted when its key waits for nothing is opened exactly if it has bytes, can be opened, and nobody
   * holds its destination. Otherwise it is gone at once, although its sender is told that it was accepted.
   */
  lemma OpenedExactly(s: State, key: Key, file: Incoming, files: Path -> File, opens: Path -> bool)
    requires Guarded(s, files) && key !in s.inbox.queues && file.stream.Unopened? && file.expectedSize >= 0
    ensures var after := AcceptLocked(s, key, file, files, opens);
            if file.expectedSize > 0 && opens(file.destination) && CanLock(s.holds, files(file.destination), Exclusive)
            then Queue(after.inbox, key) == [file.(stream := Open([]))]
            else key !in after.inbox.queues && after.holds == s.holds
  {
    assert s.holds[Writer(key) := Hold(files(file.destination), Exclusive)] - {Writer(key)} == s.holds;
    assert [file][1..] == [] && [file.(stream := Open([]))] + [] == [file.(stream := Open([]))];
    StartingHoldsOneLock([file], Writer(key), s.holds, files, opens);
    StartNextOk([file], EnvOf(s.holds, files, opens));
  }

  /** So two senders cannot both be received into one file: the second one's file is dropped. */
  lemma SecondWriterDropped(s: State, key: Key, file: Incoming, other: Key, files: Path -> File, opens: Path -> bool)
    requires Guarded(s, files) && key !in s.inbox.queues && file.stream.Unopened? && file.expectedSize > 0
    requires other in s.inbox.queues
    requires s.inbox.queues[other] != [] ==> files(s.inbox.queues[other][0].destination) == files(file.destination)
    ensures var after := AcceptLocked(s, key, file, files, opens).inbox;
            key !in after.queues && LeftOf(after, key) == LeftOf(s.inbox, key) + [Left(file, [], NotLocked)]
  {
    assert s.holds[Writer(other)].file == files(file.destination);
    assert !CanLock(s.holds, files(file.destination), Exclusive);
    assert [file][1..] == [];
    assert StartLocked([], Writer(key), s.holds, files, opens) == (Started([], []), s.holds);
    assert StartLocked([file], Writer(key), s.holds, files, opens).0 == Started([], [Left(file, [], NotLocked)] + []);
  }

  // ---- When a worker may read ----

  ghost predicate ReadersShare(s: State) {
    forall w | Reader(w) in s.holds :: s.holds[Reader(w)].mode == Shared
  }

  lemma StepReadersShare(s: State, e: Event, files: Path -> File)
    requires Guarded(s, files) && ReadersShare(s)
    ensures ReadersShare(Step(s, e, files))
  {
    match e
    case Offered(key, destination, size, opens) =>
      if key !in s.inbox.queues {
        StartingHoldsOneLock([Incoming(destination, size, Unopened)], Writer(key), s.holds, files, opens);
      }
    case Arrived(key, _, _, opens) =>
      if key in s.inbox.queues {
        StartingHoldsOneLock(s.inbox.queues[key][1..], Writer(key), s.holds - {Writer(key)}, files, opens);
      }
    case _ =>
  }

  lemma {:induction false} ReadersAlwaysShare(events: seq<Event>, files: Path -> File)
    ensures ReadersShare(Run(events, files))
  {
    if events != [] {
      ReadersAlwaysShare(events[..|events| - 1], files);
      AlwaysGuarded(events[..|events| - 1], files);
      StepReadersShare(Run(events[..|events| - 1], files), events[|events| - 1], files);
    }
  }

  /** A file is being received into. */
  ghost predicate Receiving(s: State, file: File, files: Path -> File) {
    exists k :: k in s.inbox.queues && s.inbox.queues[k] != [] && files(s.inbox.queues[k][0].destination) == file
  }

  ghost predicate Locked(s: State, file: File) {
    exists n: nat :: Foreign(n) in s.holds && s.holds[Foreign(n)] == Hold(file, Exclusive)
  }

  lemma SharedExactly(s: State, file: File, files: Path -> File)
    requires Guarded(s, files) && ReadersShare(s)
    ensures CanLock(s.holds, file, Shared) <==> !Receiving(s, file, files) && !Locked(s, file)
  {
    if !CanLock(s.holds, file, Shared) {
      var o :| o in s.holds && s.holds[o].file == file && s.holds[o].mode != Shared;
      match o
      case Writer(k) => assert QueueOk(s.inbox.queues[k]);
      case Reader(w) =>
      case Foreign(n) => assert s.holds[Foreign(n)] == Hold(file, Exclusive);
    }
    if Receiving(s, file, files) {
      var k :| k in s.inbox.queues && s.inbox.queues[k] != [] && files(s.inbox.queues[k][0].destination) == file;
      assert s.holds[Writer(k)] == Hold(file, Exclusive);
    }
    if Locked(s, file) {
      var n: nat :| Foreign(n) in s.holds && s.holds[Foreign(n)] == Hold(file, Exclusive);
      assert s.holds[Foreign(n)].mode != Shared;
    }
  }

  /**
   * After any run a worker may read a file exactly if it is not being received into and no other program has it locked
   * exclusively; other readers never stand in its way, and it holds its lock until it has done.
   */
  lemma ReadExactly(events: seq<Event>, files: Path -> File, worker: nat, path: Path)
    requires Reader(worker) !in Run(events, files).holds
    ensures var s := Run(events, files);
            var reading := Step(s, ReadingBegun(worker, path), files);
            && reading.inbox == s.inbox
            && (if Receiving(s, files(path), files) || Locked(s, files(path)) then reading.holds == s.holds
                else reading.holds == s.holds[Reader(worker) := Hold(files(path), Shared)])
            && Step(reading, ReadingEnded(worker), files) == s
  {
    var s, file := Run(events, files), files(path);
    AlwaysGuarded(events, files);
    ReadersAlwaysShare(events, files);
    assert s.holds[Reader(worker) := Hold(file, Shared)] - {Reader(worker)} == s.holds == s.holds - {Reader(worker)};
    SharedExactly(s, file, files);
  }
}
