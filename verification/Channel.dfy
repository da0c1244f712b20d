/**
 * Sending files over a data channel without letting its buffer grow (src/WebRTCClient.cpp, ConnectionManager.swift).
 */
module Channel {
  import opened Wrappers
  import opened Files
  import opened Queues
  import A = Alignment

  // ---- A file in chunks ----

  function Chunks(content: Bytes, max: nat): seq<Bytes>
    requires max > 0
  {
    if content == [] then [] else
    var n := Min(max, |content|);
    [content[..n]] + Chunks(content[n..], max)
  }

  /** The chunks are the file, and all are full but the last, which is not empty. */
  lemma {:induction false} ChunksAreTheFile(content: Bytes, max: nat)
    requires max > 0
    ensures A.Flat(Chunks(content, max)) == content
    ensures forall i | 0 <= i < |Chunks(content, max)| :: 0 < |Chunks(content, max)[i]| <= max
    ensures forall i | 0 <= i < |Chunks(content, max)| - 1 :: |Chunks(content, max)[i]| == max
  {
    if content != [] {
      var n := Min(max, |content|);
      ChunksAreTheFile(content[n..], max);
      assert content == content[..n] + content[n..];
    }
  }

  // ---- The channel ----

  /**
   * closes: whether the network will ever close the channel, and refuses: which attempts of the C library's send will
   * fail, are not the sender's to decide. peak: the most that was ever buffered.
   */
  class DataChannel {
    const closes: bool
    const refuses: nat -> bool
    var open: bool
    var buffered: nat
    var attempts: nat
    var sent: seq<Bytes>
    ghost var peak: nat

    constructor (closes: bool, refuses: nat -> bool)
      ensures open && buffered == 0 && attempts == 0 && sent == [] && peak == 0
      ensures this.closes == closes && this.refuses == refuses
    {
      this.closes, this.refuses := closes, refuses;
      open, buffered, attempts, sent, peak := true, 0, 0, [], 0;
    }

    /** Time passes: the network takes bytes away, and may close the channel. */
    method Elapse()
      modifies `open, `buffered
      ensures buffered <= old(buffered) && (open ==> old(open)) && (!closes ==> open == old(open))
    {
      var drained: nat :| drained <= buffered;
      var stays: bool := *;
      buffered, open := buffered - drained, open && (stays || !closes);
    }

    /** A false answer means that bytes are still buffered, not that they are lost. */
    method Send(chunk: Bytes) returns (taken: bool)
      modifies `sent, `peak, `buffered
      ensures sent == old(sent) + [chunk]
      ensures buffered <= old(buffered) + |chunk| &&
              peak == old(if buffered + |chunk| > peak then buffered + |chunk| else peak)
      ensures taken ==> buffered <= old(buffered)
    {
      sent := sent + [chunk];
      peak := if buffered + |chunk| > peak then buffered + |chunk| else peak;
      taken := *;
      if !taken {
        buffered := buffered + |chunk|;
      }
    }

    /** The C library's send: a failure sends nothing. */
    method SendBinary(chunk: Bytes) returns (ok: bool)
      modifies `sent, `peak, `buffered, `attempts
      ensures ok == !refuses(old(attempts)) && attempts == old(attempts) + 1
      ensures sent == if ok then old(sent) + [chunk] else old(sent)
      ensures buffered <= if ok then old(buffered) + |chunk| else old(buffered)
      ensures peak == old(if !refuses(attempts) && buffered + |chunk| > peak then buffered + |chunk| else peak)
    {
      ok := !refuses(attempts);
      attempts := attempts + 1;
      if ok {
        var _ := Send(chunk);
      }
    }

    /** Waits until there is room again or the channel is closed. */
    method WaitForCapacity(max: nat) returns (ok: bool)
      modifies `open, `buffered
      ensures ok == open && (open ==> old(open) && buffered <= max / 2) && (!closes ==> open == old(open))
      ensures buffered <= old(buffered)
    {
      Elapse();
      if open && buffered > max / 2 {
        var left: nat :| left <= max / 2;
        buffered := left;
      }
      ok := open;
    }

    /** Sleeps for as long as more than `limit` bytes are buffered. */
    method SleepUntil(limit: nat)
      modifies `open, `buffered
      ensures (open ==> old(open)) && (!closes ==> open == old(open)) && buffered <= limit
    {
      Elapse();
      if buffered > limit {
        var left: nat :| left <= limit;
        buffered := left;
      }
    }
  }

  // ---- The worker of the C++ client ----

  /** What the worker has sent of a file, when `rest` is still to go. */
  ghost predicate Under(sent: seq<Bytes>, before: seq<Bytes>, content: Bytes, rest: Bytes, max: nat)
    requires max > 0
  {
    sent + Chunks(rest, max) == before + Chunks(content, max)
  }

  lemma OneChunkOn(sent: seq<Bytes>, before: seq<Bytes>, content: Bytes, rest: Bytes, max: nat, n: nat)
    requires max > 0 && Under(sent, before, content, rest, max) && rest != [] && n == Min(max, |rest|)
    ensures Under(sent + [rest[..n]], before, content, rest[n..], max)
  {
    assert sent + ([rest[..n]] + Chunks(rest[n..], max)) == sent + [rest[..n]] + Chunks(rest[n..], max);
  }

  lemma UnderPrefix(sent: seq<Bytes>, before: seq<Bytes>, content: Bytes, rest: Bytes, max: nat)
    requires max > 0 && Under(sent, before, content, rest, max)
    ensures sent <= before + Chunks(content, max)
    ensures rest == [] ==> sent == before + Chunks(content, max)
  {
    assert sent <= sent + Chunks(rest, max);
    assert sent + [] == sent;
  }

  /** Before a send: waits while more than `max` bytes are buffered. */
  method AwaitRoom(channel: DataChannel, max: nat) returns (ok: bool)
    modifies channel`open, channel`buffered
    ensures !channel.closes ==> channel.open == old(channel.open)
    ensures if ok then channel.buffered <= max else !channel.open
  {
    while channel.buffered > max
      invariant !channel.closes ==> channel.open == old(channel.open)
      decreases if channel.buffered > max then 1 else 0
    {
      ok := channel.WaitForCapacity(max);
      if !ok {
        return false;
      }
    }
    ok := true;
  }

  /** Sends a chunk once there is room, and waits again if it was buffered. */
  method SendChunk(channel: DataChannel, chunk: Bytes, max: nat) returns (ok: bool)
    requires |chunk| <= max && channel.peak <= 2 * max
    modifies channel
    ensures channel.peak <= 2 * max
    ensures channel.sent == old(channel.sent) + [chunk] || (!ok && channel.sent == old(channel.sent))
    ensures !ok ==> !channel.open
    ensures !channel.closes ==> channel.open == old(channel.open)
  {
    var room := AwaitRoom(channel, max);
    if !room {
      return false;
    }
    ok := channel.Send(chunk);
    if !ok {
      ok := channel.WaitForCapacity(max);
    }
  }

  /**
   * Sends a file. Every send starts with at most `max` bytes buffered, so the buffer never holds more than twice that;
   * the bytes still to read bound the number of rounds. Only the network's closing the channel keeps it from the end.
   */
  method SendFile(channel: DataChannel, file: InputStream, max: nat) returns (completed: bool)
    requires max > 0 && file.Valid() && file.pos == 0 && !file.failed && channel.peak <= 2 * max
    modifies channel, file
    ensures channel.peak <= 2 * max
    ensures old(channel.sent) <= channel.sent <= old(channel.sent) + Chunks(file.content, max)
    ensures completed ==> channel.sent == old(channel.sent) + Chunks(file.content, max)
    ensures !completed ==> !channel.open
    ensures !channel.closes ==> channel.open == old(channel.open) && (channel.open ==> completed)
  {
    ghost var before, content := channel.sent, file.content;
    var chunk := new byte[max];
    ghost var done: nat := 0;
    var ok, bytesRead: nat := file.Read(chunk);
    while ok || bytesRead > 0
      invariant file.Valid() && chunk.Length == max && file.failed == !ok
      invariant done + bytesRead == file.pos && bytesRead == Min(max, |content| - done) && (ok ==> bytesRead == max)
      invariant chunk[..bytesRead] == content[done..file.pos]
      invariant Under(channel.sent, before, content, content[done..], max)
      invariant channel.peak <= 2 * max && before <= channel.sent
      invariant !channel.closes ==> channel.open == old(channel.open)
      decreases |content| - done
    {
      ghost var sent := channel.sent;
      OneChunkOn(sent, before, content, content[done..], max, bytesRead);
      assert chunk[..bytesRead] == content[done..][..bytesRead];
      assert content[done..][bytesRead..] == content[done + bytesRead..];
      UnderPrefix(sent, before, content, content[done..], max);
      UnderPrefix(sent + [chunk[..bytesRead]], before, content, content[done + bytesRead..], max);
      var room := SendChunk(channel, chunk[..bytesRead], max);
      if !room {
        return false;
      }
      done := done + bytesRead;
      ok, bytesRead := file.Read(chunk);
    }
    UnderPrefix(channel.sent, before, content, [], max);
    completed := true;
  }

  // ---- The worker's files one after the other ----

  type Disk = string -> Option<Bytes>

  /** The files that are sent: those whose path is not empty and which can be locked and opened. */
  function Sendable(paths: seq<string>, disk: Disk): seq<string> {
    if paths == [] then [] else
    (if paths[0] != "" && disk(paths[0]).Some? then [paths[0]] else []) + Sendable(paths[1..], disk)
  }

  /** No path that can be sent is left out, and none is sent that cannot be. */
  lemma {:induction false} SendableExactly(paths: seq<string>, disk: Disk, path: string)
    ensures multiset(Sendable(paths, disk))[path] ==
            if path != "" && disk(path).Some? then multiset(paths)[path] else 0
  {
    if paths != [] {
      assert paths == [paths[0]] + paths[1..];
      SendableExactly(paths[1..], disk, path);
    }
  }

  function Stream(paths: seq<string>, disk: Disk, max: nat): seq<Bytes>
    requires max > 0
  {
    if paths == [] then [] else
    (if paths[0] != "" && disk(paths[0]).Some? then Chunks(disk(paths[0]).value, max) else []) +
    Stream(paths[1..], disk, max)
  }

  function Contents(paths: seq<string>, disk: Disk): seq<Bytes> {
    if paths == [] then [] else
    (if disk(paths[0]).Some? then [disk(paths[0]).value] else []) + Contents(paths[1..], disk)
  }

  /** What the channel carries when all is sent is the sendable files, one after the other. */
  lemma {:induction false} StreamIsTheFiles(paths: seq<string>, disk: Disk, max: nat)
    requires max > 0
    ensures A.Flat(Stream(paths, disk, max)) == A.Flat(Contents(Sendable(paths, disk), disk))
  {
    if paths != [] {
      StreamIsTheFiles(paths[1..], disk, max);
      if paths[0] != "" && disk(paths[0]).Some? {
        var content := disk(paths[0]).value;
        ChunksAreTheFile(content, max);
        A.FlatConcat(Chunks(content, max), Stream(paths[1..], disk, max));
        assert Sendable(paths, disk)[1..] == Sendable(paths[1..], disk);
        assert ([content] + Contents(Sendable(paths[1..], disk), disk))[1..] ==
               Contents(Sendable(paths[1..], disk), disk);
      } else {
        assert Sendable(paths, disk) == Sendable(paths[1..], disk);
        assert Stream(paths, disk, max) == Stream(paths[1..], disk, max);
      }
    }
  }

  lemma {:induction false} SendableOneMore(paths: seq<string>, path: string, disk: Disk)
    ensures Sendable(paths + [path], disk) == Sendable(paths, disk) + Sendable([path], disk)
  {
    if paths == [] {
      assert [] + [path] == [path];
    } else {
      assert (paths + [path])[1..] == paths[1..] + [path];
      SendableOneMore(paths[1..], path, disk);
    }
  }

  lemma {:induction false} StreamOneMore(paths: seq<string>, path: string, disk: Disk, max: nat)
    requires max > 0
    ensures Stream(paths + [path], disk, max) == Stream(paths, disk, max) + Stream([path], disk, max)
  {
    if paths == [] {
      assert [] + [path] == [path];
    } else {
      assert (paths + [path])[1..] == paths[1..] + [path];
      StreamOneMore(paths[1..], path, disk, max);
    }
  }

  lemma OneServed(path: string, disk: Disk, max: nat)
    requires max > 0
    ensures var sendable := path != "" && disk(path).Some?;
            && Stream([path], disk, max) == (if sendable then Chunks(disk(path).value, max) else [])
            && Sendable([path], disk) == if sendable then [path] else []
  {
    assert [path][1..] == [];
  }

  /** All that was sent belongs to the first k paths; with the channel still open, so does all that is announced. */
  ghost predicate Served(sent: seq<Bytes>, before: seq<Bytes>, completed: seq<string>, paths: seq<string>, disk: Disk,
                         max: nat)
    requires max > 0
  {
    sent == before + Stream(paths, disk, max) && completed == Sendable(paths, disk)
  }

  lemma ServedOneMore(sent: seq<Bytes>, before: seq<Bytes>, completed: seq<string>, paths: seq<string>, disk: Disk,
                      max: nat, k: nat)
    requires max > 0 && k < |paths| && Served(sent, before, completed, paths[..k], disk, max)
    ensures var path := paths[k];
            if path != "" && disk(path).Some?
            then Served(sent + Chunks(disk(path).value, max), before, completed + [path], paths[..k + 1], disk, max)
            else Served(sent, before, completed, paths[..k + 1], disk, max)
  {
    StreamOneMore(paths[..k], paths[k], disk, max);
    SendableOneMore(paths[..k], paths[k], disk);
    OneServed(paths[k], disk, max);
    assert paths[..k] + [paths[k]] == paths[..k + 1];
    Assoc(before, Stream(paths[..k], disk, max), Stream([paths[k]], disk, max));
    Assoc(sent, [], []);
    Assoc(completed, [], []);
  }

  /**
   * The worker's loop over the paths in its queue. If the channel stays open all of them are served; if it closes, what
   * was sent is the beginning of that, and only files that were sent whole were announced as complete.
   */
  method TransferFiles(channel: DataChannel, fileQ: FileQueue<string>, disk: Disk, max: nat)
    returns (completed: seq<string>, ghost served: nat, ghost last: seq<Bytes>)
    requires max > 0 && channel.peak <= 2 * max && fileQ.Valid()
    modifies channel, fileQ
    ensures channel.peak <= 2 * max && fileQ.Valid() && served <= |old(fileQ.items)|
    ensures Interrupted(channel.sent, old(channel.sent), completed, old(fileQ.items), disk, max, served, last)
    ensures channel.open ==> served == |old(fileQ.items)| && last == [] && fileQ.items == []
    ensures !channel.closes ==> channel.open == old(channel.open)
  {
    completed, last := [], [];
    ghost var before, paths := channel.sent, fileQ.items;
    ghost var k: nat := 0;
    assert paths[..0] == [] && before + [] == before;
    while channel.open && fileQ.items != []
      invariant fileQ.Valid() && k <= |paths| && fileQ.items == paths[k..]
      invariant channel.peak <= 2 * max && last == [] && (!channel.closes ==> channel.open == old(channel.open))
      invariant Served(channel.sent, before, completed, paths[..k], disk, max)
      decreases |fileQ.items|
    {
      channel.Elapse();
      var path := fileQ.GetItem();
      if !channel.open {
        break;
      }
      ServedOneMore(channel.sent, before, completed, paths, disk, max, k);
      if path != "" && disk(path).Some? {
        ghost var sofar := channel.sent;
        var ok := SendPath(channel, disk(path).value, max);
        if !ok || !channel.open {
          served, last := k, channel.sent[|sofar|..];
          return;
        }
        completed := completed + [path];
      }
      k := k + 1;
    }
    WholeSoFar(channel.sent, before, completed, paths, disk, max, k);
    served := k;
  }

  method SendPath(channel: DataChannel, content: Bytes, max: nat) returns (ok: bool)
    requires max > 0 && channel.peak <= 2 * max
    modifies channel
    ensures channel.peak <= 2 * max
    ensures old(channel.sent) <= channel.sent <= old(channel.sent) + Chunks(content, max)
    ensures ok ==> channel.sent == old(channel.sent) + Chunks(content, max)
    ensures !ok ==> !channel.open
    ensures !channel.closes ==> channel.open == old(channel.open)
  {
    var file := new InputStream(content);
    ok := SendFile(channel, file, max);
  }

  /** The first k paths were served, and `last` is the part of the next file that was sent. */
  ghost predicate Interrupted(sent: seq<Bytes>, before: seq<Bytes>, completed: seq<string>, paths: seq<string>,
                              disk: Disk, max: nat, k: nat, last: seq<Bytes>)
    requires max > 0 && k <= |paths|
  {
    && completed == Sendable(paths[..k], disk)
    && sent == before + Stream(paths[..k], disk, max) + last
    && (last == [] || (k < |paths| && disk(paths[k]).Some? && last <= Chunks(disk(paths[k]).value, max)))
  }

  lemma WholeSoFar(sent: seq<Bytes>, before: seq<Bytes>, completed: seq<string>, paths: seq<string>, disk: Disk,
                   max: nat, k: nat)
    requires max > 0 && k <= |paths| && Served(sent, before, completed, paths[..k], disk, max)
    ensures Interrupted(sent, before, completed, paths, disk, max, k, [])
  {
    assert sent + [] == sent;
  }

  // ---- The worker's sends are the sends of the link ----

  /** The events of a file on its link: it is taken from the queue, sent in chunks, and ended. */
  function FileEvents(content: Bytes, max: nat): seq<A.Event>
    requires max > 0
  {
    [A.Dequeued] + ChunkEvents(|Chunks(content, max)|) + [A.FileEnded]
  }

  function ChunkEvents(n: nat): seq<A.Event> {
    if n == 0 then [] else [A.ChunkSent] + ChunkEvents(n - 1)
  }

  ghost function Play(disk: A.Disk, max: nat, l: A.Link, events: seq<A.Event>): A.Link
    requires max > 0
    decreases events
  {
    if events == [] then l else Play(disk, max, A.Step(disk, max, l, events[0]), events[1..])
  }

  lemma {:induction false} PlayConcat(disk: A.Disk, max: nat, l: A.Link, a: seq<A.Event>, b: seq<A.Event>)
    requires max > 0
    ensures Play(disk, max, l, a + b) == Play(disk, max, Play(disk, max, l, a), b)
    decreases a
  {
    if a == [] {
      assert a + b == b;
    } else {
      assert (a + b)[1..] == a[1..] + b;
      PlayConcat(disk, max, A.Step(disk, max, l, a[0]), a[1..], b);
    }
  }

  lemma {:induction false} PlayChunks(disk: A.Disk, max: nat, l: A.Link, content: Bytes)
    requires max > 0 && l.current == Some(content)
    ensures Play(disk, max, l, ChunkEvents(|Chunks(content, max)|)) ==
            l.(current := Some([]), wire := l.wire + Chunks(content, max))
    decreases |content|
  {
    if content == [] {
      Assoc(l.wire, [], []);
    } else {
      var n := Min(max, |content|);
      var events := ChunkEvents(|Chunks(content, max)|);
      assert events[1..] == ChunkEvents(|Chunks(content[n..], max)|);
      var next := A.Step(disk, max, l, A.ChunkSent);
      PlayChunks(disk, max, next, content[n..]);
      Assoc(l.wire, [content[..n]], Chunks(content[n..], max));
    }
  }

  /** Sending a whole file as the worker does is a run of the link's own steps, with the same chunks on the wire. */
  lemma WorkerIsTheLink(disk: A.Disk, max: nat, l: A.Link)
    requires max > 0 && l.current.None? && l.fileQ != []
    ensures var content := disk(l.fileQ[0]);
            Play(disk, max, l, FileEvents(content, max)) ==
            l.(fileQ := l.fileQ[1..], wire := l.wire + Chunks(content, max))
  {
    var content := disk(l.fileQ[0]);
    var chunks := ChunkEvents(|Chunks(content, max)|);
    var taken := A.Step(disk, max, l, A.Dequeued);
    PlayConcat(disk, max, l, [A.Dequeued] + chunks, [A.FileEnded]);
    PlayConcat(disk, max, l, [A.Dequeued], chunks);
    assert [A.Dequeued][1..] == [] && [A.FileEnded][1..] == [];
    PlayChunks(disk, max, taken, content);
  }

  // ---- The iOS sender ----

  const CHUNK_SIZE: nat := 16 * 1024
  const HIGH_WATER_MARK: nat := 0x10_0000

  /**
   * Sends an accepted file; the buffer never holds more than a chunk above the mark. It stops short exactly at a send
   * that fails.
   */
  method SendData(channel: DataChannel, data: Bytes) returns (done: bool, sent: nat)
    requires channel.peak <= HIGH_WATER_MARK + CHUNK_SIZE
    modifies channel
    ensures channel.peak <= HIGH_WATER_MARK + CHUNK_SIZE
    ensures sent <= |data| && done == (sent == |data|)
    ensures old(channel.sent) <= channel.sent
    ensures channel.sent + Chunks(data[sent..], CHUNK_SIZE) == old(channel.sent) + Chunks(data, CHUNK_SIZE)
    ensures old(channel.attempts) <= channel.attempts
    ensures done <==> forall i | old(channel.attempts) <= i < channel.attempts :: !channel.refuses(i)
  {
    ghost var before := channel.sent;
    var offset: nat := 0;
    assert data[0..] == data;
    while offset < |data|
      invariant offset <= |data| && channel.peak <= HIGH_WATER_MARK + CHUNK_SIZE
      invariant before <= channel.sent && Under(channel.sent, before, data, data[offset..], CHUNK_SIZE)
      invariant old(channel.attempts) <= channel.attempts
      invariant forall i | old(channel.attempts) <= i < channel.attempts :: !channel.refuses(i)
      decreases |data| - offset
    {
      channel.SleepUntil(HIGH_WATER_MARK);
      var end := Min(offset + CHUNK_SIZE, |data|);
      OneChunkOn(channel.sent, before, data, data[offset..], CHUNK_SIZE, end - offset);
      assert data[offset..end] == data[offset..][..end - offset] && data[offset..][end - offset..] == data[end..];
      var ok := channel.SendBinary(data[offset..end]);
      if !ok {
        assert channel.refuses(channel.attempts - 1);
        return false, offset;
      }
      offset := end;
    }
    done, sent := true, offset;
  }
}
