/**
 * One sender, one receiver, one room, one signalling session. File bytes travel unframed: what keeps every chunk in
 * its own file is that the sender's accepted files, the data channel and the receiver's deque stay in step
 * (src/WebRTCClient.cpp). Offers and answers travel through the server in order and may overtake chunks.
 */
module Alignment {
  import opened Wrappers
  import opened Files
  import opened Paths
  import opened Receiver

  type Uuid = string
  /** The sender's files, which do not change between offer and transfer. */
  type Disk = string -> Bytes

  datatype Offer = Offer(uuid: Uuid, size: nat, destination: Path)
  datatype Answer = Answer(uuid: Uuid, accepted: bool)

  /**
   * offers, answers: under way in the two directions; pending, fileQ, current: the sender's offers without an answer,
   * accepted files in turn, and what is left of the file being sent; wire: chunks under way; queue, left: the
   * receiver's deque and what left it. offered and taken are history: every path offered, every offer accepted.
   */
  datatype Link = Link(
    offers: seq<Offer>, answers: seq<Answer>, pending: map<Uuid, string>, fileQ: seq<string>, current: Option<Bytes>,
    wire: seq<Bytes>, queue: seq<Incoming>, left: seq<Left>, offered: map<Uuid, string>, taken: seq<Uuid>)

  const IDLE := Link([], [], map[], [], None, [], [], [], map[], [])

  datatype Event =
    | Offered(uuid: Uuid, path: string, destination: Path)
    | Withdrawn(uuid: Uuid, path: string)
    | OfferLost(i: nat)
    | Ignored
    | Declined
    | Accepted(env: Env)
    | AnswerLost(i: nat)
    | AnswerTaken(channel: bool)
    | Dequeued
    | ChunkSent
    | FileEnded
    | Skipped
    | CutOff
    | Delivered(writes: bool, env: Env)

  function Without<T>(s: seq<T>, i: nat): seq<T>
    requires i < |s|
  {
    s[..i] + s[i + 1..]
  }

  ghost predicate Enabled(l: Link, e: Event) {
    match e
    case Offered(uuid, _, _) => uuid !in l.offered
    case Withdrawn(uuid, _) => uuid !in l.offered
    case OfferLost(i) => i < |l.offers|
    case Ignored => l.offers != []
    case Declined => l.offers != []
    case Accepted(env) => l.offers != []
    case AnswerLost(i) => i < |l.answers|
    case AnswerTaken(_) => l.answers != []
    case Dequeued => l.current.None? && l.fileQ != []
    case ChunkSent => l.current.Some? && l.current.value != []
    case FileEnded => l.current == Some([])
    case Skipped => l.current.None? && l.fileQ != []
    case CutOff => l.current.Some? && l.current.value != []
    case Delivered(_, _) => l.wire != []
  }

  /**
   * A response takes the pending offer with its uuid, if there still is one; an acceptance queues its file, if there
   * still is a channel.
   */
  function TakeAnswer(l: Link, a: Answer, channel: bool): Link {
    if a.uuid !in l.pending then l
    else l.(pending := l.pending - {a.uuid},
            fileQ := if a.accepted && channel then l.fileQ + [l.pending[a.uuid]] else l.fileQ)
  }

  /** max is the channel's message size; an event that cannot happen changes nothing. */
  ghost function Step(disk: Disk, max: nat, l: Link, e: Event): Link
    requires max > 0
  {
    if !Enabled(l, e) then l else
    match e
    case Offered(uuid, path, destination) =>
      l.(offers := l.offers + [Offer(uuid, |disk(path)|, destination)],
         pending := l.pending[uuid := path], offered := l.offered[uuid := path])
    case Withdrawn(uuid, path) => l.(offered := l.offered[uuid := path])
    case OfferLost(i) => l.(offers := Without(l.offers, i))
    case Ignored => l.(offers := l.offers[1..])
    case Declined => l.(offers := l.offers[1..], answers := l.answers + [Answer(l.offers[0].uuid, false)])
    case Accepted(env) =>
      var o := l.offers[0];
      var r := Enqueue(l.queue, Incoming(o.destination, o.size, Unopened), env);
      l.(offers := l.offers[1..], answers := l.answers + [Answer(o.uuid, true)],
         queue := r.queue, left := l.left + r.left, taken := l.taken + [o.uuid])
    case AnswerLost(i) => l.(answers := Without(l.answers, i))
    case AnswerTaken(channel) => TakeAnswer(l.(answers := l.answers[1..]), l.answers[0], channel)
    case Dequeued => l.(current := Some(disk(l.fileQ[0])), fileQ := l.fileQ[1..])
    case ChunkSent =>
      var n := Min(max, |l.current.value|);
      l.(wire := l.wire + [l.current.value[..n]], current := Some(l.current.value[n..]))
    case FileEnded => l.(current := None)
    case Skipped => l.(fileQ := l.fileQ[1..])
    case CutOff => l.(current := None)
    case Delivered(writes, env) =>
      var r := Write(l.queue, l.wire[0], writes, env);
      l.(wire := l.wire[1..], queue := r.queue, left := l.left + r.left)
  }

  ghost function Run(disk: Disk, max: nat, events: seq<Event>): Link
    requires max > 0
  {
    if events == [] then IDLE else Step(disk, max, Run(disk, max, events[..|events| - 1]), events[|events| - 1])
  }

  // ---- Byte streams ----

  function Flat(files: seq<Bytes>): Bytes {
    if files == [] then [] else files[0] + Flat(files[1..])
  }

  function NonEmpty(files: seq<Bytes>): (r: seq<Bytes>)
    ensures [] !in r
  {
    if files == [] then [] else (if files[0] == [] then [] else [files[0]]) + NonEmpty(files[1..])
  }

  lemma {:induction false} FlatConcat(a: seq<Bytes>, b: seq<Bytes>)
    ensures Flat(a + b) == Flat(a) + Flat(b)
  {
    if a == [] {
      assert a + b == b;
    } else {
      assert (a + b)[1..] == a[1..] + b;
      FlatConcat(a[1..], b);
      Assoc(a[0], Flat(a[1..]), Flat(b));
    }
  }

  lemma {:induction false} NonEmptyConcat(a: seq<Bytes>, b: seq<Bytes>)
    ensures NonEmpty(a + b) == NonEmpty(a) + NonEmpty(b)
  {
    if a == [] {
      assert a + b == b;
    } else {
      assert (a + b)[1..] == a[1..] + b;
      NonEmptyConcat(a[1..], b);
      Assoc(if a[0] == [] then [] else [a[0]], NonEmpty(a[1..]), NonEmpty(b));
    }
  }

  lemma {:induction false} FlatNonEmpty(files: seq<Bytes>)
    ensures Flat(NonEmpty(files)) == Flat(files)
  {
    if files != [] {
      FlatNonEmpty(files[1..]);
      assert files[0] != [] ==> NonEmpty(files)[1..] == NonEmpty(files[1..]);
      assert files[0] == [] ==> NonEmpty(files) == NonEmpty(files[1..]);
      Assoc([], [], Flat(files[1..]));
    }
  }

  /** What is left of a list of files once c was taken from the first. */
  function After(files: seq<Bytes>, c: Bytes): seq<Bytes>
    requires files != [] && c <= files[0]
  {
    if c == files[0] then files[1..] else [files[0][|c|..]] + files[1..]
  }

  /** Each chunk in turn lies within the first unfinished file, and taking them all leaves `remaining`. */
  ghost predicate Fits(wire: seq<Bytes>, files: seq<Bytes>, remaining: seq<Bytes>)
    decreases wire
  {
    if wire == [] then files == remaining
    else files != [] && wire[0] != [] && wire[0] <= files[0] && Fits(wire[1..], After(files, wire[0]), remaining)
  }

  lemma AfterAppend(files: seq<Bytes>, more: seq<Bytes>, c: Bytes)
    requires files != [] && c <= files[0]
    ensures After(files + more, c) == After(files, c) + more
  {
    assert (files + more)[1..] == files[1..] + more;
    Assoc([files[0][|c|..]], files[1..], more);
  }

  lemma {:induction false} FitsAppend(wire: seq<Bytes>, files: seq<Bytes>, remaining: seq<Bytes>, more: seq<Bytes>)
    requires Fits(wire, files, remaining)
    ensures Fits(wire, files + more, remaining + more)
    decreases wire
  {
    if wire != [] {
      FitsAppend(wire[1..], After(files, wire[0]), remaining, more);
      AfterAppend(files, more, wire[0]);
    }
  }

  lemma {:induction false} FitsSend(wire: seq<Bytes>, files: seq<Bytes>, remaining: seq<Bytes>, c: Bytes)
    requires Fits(wire, files, remaining) && remaining != [] && c != [] && c <= remaining[0]
    ensures Fits(wire + [c], files, After(remaining, c))
    decreases wire
  {
    if wire == [] {
      assert wire + [c] == [c] && [c][1..] == [];
    } else {
      assert (wire + [c])[1..] == wire[1..] + [c];
      FitsSend(wire[1..], After(files, wire[0]), remaining, c);
    }
  }

  lemma FlatAfter(files: seq<Bytes>, c: Bytes)
    requires files != [] && c <= files[0]
    ensures Flat(files) == c + Flat(After(files, c))
  {
    assert files[0] == c + files[0][|c|..];
    if c != files[0] {
      assert After(files, c)[1..] == files[1..];
      assert c + (files[0][|c|..] + Flat(files[1..])) == files[0] + Flat(files[1..]);
    }
  }

  lemma {:induction false} FitsBytes(wire: seq<Bytes>, files: seq<Bytes>, remaining: seq<Bytes>)
    requires Fits(wire, files, remaining)
    ensures Flat(wire) + Flat(remaining) == Flat(files)
    decreases wire
  {
    if wire == [] {
      Assoc([], [], Flat(remaining));
    } else {
      FlatAfter(files, wire[0]);
      FitsBytes(wire[1..], After(files, wire[0]), remaining);
      Assoc(wire[0], Flat(wire[1..]), Flat(remaining));
    }
  }

  // ---- The receiver's deque against the contents its files should have ----

  ghost predicate Holds(queue: seq<Incoming>, contents: seq<Bytes>) {
    && |queue| == |contents|
    && (queue == [] || (QueueOk(queue) && queue[0].stream.written <= contents[0]))
    && forall i | 0 <= i < |queue| :: queue[i].expectedSize == |contents[i]|
  }

  function Written(f: Incoming): nat {
    if f.stream.Open? then |f.stream.written| else 0
  }

  /** The bytes each file still waits for. */
  function Rests(queue: seq<Incoming>, contents: seq<Bytes>): (r: seq<Bytes>)
    requires |queue| == |contents|
    ensures |r| == |queue|
  {
    if queue == [] then []
    else [if Written(queue[0]) <= |contents[0]| then contents[0][Written(queue[0])..] else []] +
         Rests(queue[1..], contents[1..])
  }

  /**
   * Every file that was closed as complete has the content it should have; the only others that left are those whose
   * last write failed and empty ones.
   */
  ghost predicate LeftWhole(left: seq<Left>, contents: seq<Bytes>) {
    && |left| <= |contents|
    && forall i | 0 <= i < |left| ::
         && (left[i].fate == Complete ==> left[i].content == contents[i])
         && (left[i].fate == Complete || left[i].fate == WriteFailed || contents[i] == [])
  }

  lemma {:induction false} RestsConcat(a: seq<Incoming>, b: seq<Incoming>, x: seq<Bytes>, y: seq<Bytes>)
    requires |a| == |x| && |b| == |y|
    ensures Rests(a + b, x + y) == Rests(a, x) + Rests(b, y)
  {
    if a == [] {
      assert a + b == b && x + y == y;
    } else {
      assert (a + b)[1..] == a[1..] + b && (x + y)[1..] == x[1..] + y;
      RestsConcat(a[1..], b, x[1..], y);
    }
  }

  ghost predicate Waiting(queue: seq<Incoming>, contents: seq<Bytes>) {
    && |queue| == |contents|
    && forall i | 0 <= i < |queue| :: queue[i].stream.Unopened? && queue[i].expectedSize == |contents[i]|
  }

  /** The new deque holds, complete files left it, and no byte it waited for is missing. */
  ghost predicate Carries(r: Started, contents: seq<Bytes>, rests: seq<Bytes>) {
    var n := |r.left|;
    && LeftWhole(r.left, contents) && n + |r.queue| == |contents| && Holds(r.queue, contents[n..])
    && NonEmpty(Rests(r.queue, contents[n..])) == rests
  }

  lemma OpenFront(queue: seq<Incoming>, contents: seq<Bytes>)
    requires Waiting(queue, contents) && queue != [] && contents[0] != []
    ensures Carries(Started([queue[0].(stream := Open([]))] + queue[1..], []), contents,
                    NonEmpty(Rests(queue, contents)))
  {
    assert ([queue[0].(stream := Open([]))] + queue[1..])[1..] == queue[1..];
    assert contents[0..] == contents;
  }

  lemma CarriesOneMore(r: Started, l: Left, contents: seq<Bytes>, rests: seq<Bytes>)
    requires contents != [] && Carries(r, contents[1..], rests)
    requires l.fate == Complete ==> l.content == contents[0]
    requires l.fate == Complete || l.fate == WriteFailed || contents[0] == []
    ensures Carries(Started(r.queue, [l] + r.left), contents, rests)
  {
    var left := [l] + r.left;
    assert contents[1..][|r.left|..] == contents[|r.left| + 1..];
    forall i | 0 <= i < |left|
      ensures left[i].fate == Complete ==> left[i].content == contents[i]
      ensures left[i].fate == Complete || left[i].fate == WriteFailed || contents[i] == []
    {
      assert i > 0 ==> left[i] == r.left[i - 1] && contents[i] == contents[1..][i - 1];
    }
  }

  /** The first of the files that has bytes to come, if there is one, can be locked and opened. */
  predicate NextOpens(queue: seq<Incoming>, env: Env) {
    queue == [] ||
    if queue[0].expectedSize == 0 then NextOpens(queue[1..], env) else env(queue[0].destination) == Opens
  }

  lemma {:induction false} StartNextHolds(queue: seq<Incoming>, contents: seq<Bytes>, env: Env)
    requires Waiting(queue, contents) && NextOpens(queue, env)
    ensures Carries(StartNext(queue, env), contents, NonEmpty(Rests(queue, contents)))
  {
    if queue == [] {
    } else if queue[0].expectedSize != 0 {
      OpenFront(queue, contents);
    } else {
      var rest, left := StartNext(queue[1..], env), StartNext(queue, env).left;
      assert contents[0] == [] && left[0].content == [];
      StartNextHolds(queue[1..], contents[1..], env);
      CarriesOneMore(rest, left[0], contents, NonEmpty(Rests(queue[1..], contents[1..])));
    }
  }

  lemma EnqueueBehind(queue: seq<Incoming>, contents: seq<Bytes>, file: Incoming, content: Bytes)
    requires Holds(queue, contents) && queue != [] && file.stream.Unopened? && file.expectedSize == |content|
    ensures Holds(queue + [file], contents + [content])
    ensures NonEmpty(Rests(queue + [file], contents + [content])) ==
            NonEmpty(Rests(queue, contents)) + NonEmpty([content])
  {
    assert Rests([file], [content]) == [content];
    RestsConcat(queue, [file], contents, [content]);
    NonEmptyConcat(Rests(queue, contents), [content]);
  }

  lemma EnqueueHolds(queue: seq<Incoming>, contents: seq<Bytes>, file: Incoming, content: Bytes, env: Env)
    requires Holds(queue, contents) && file.stream.Unopened? && file.expectedSize == |content|
    requires queue != [] || NextOpens([file], env)
    ensures Carries(Enqueue(queue, file, env), contents + [content],
                    NonEmpty(Rests(queue, contents)) + NonEmpty([content]))
  {
    var all := contents + [content];
    if queue == [] {
      assert all == [content] && Rests([file], [content]) == [content];
      Assoc([], [], NonEmpty([content]));
      StartNextHolds([file], [content], env);
    } else {
      EnqueueBehind(queue, contents, file, content);
      assert all[0..] == all;
    }
  }

  lemma WriteShort(queue: seq<Incoming>, contents: seq<Bytes>, c: Bytes)
    requires Holds(queue, contents) && c != [] && queue != [] && c < contents[0][|queue[0].stream.written|..]
    ensures var w := queue[0].stream.written;
            Carries(Started([queue[0].(stream := Open(w + c))] + queue[1..], []), contents,
                    After(NonEmpty(Rests(queue, contents)), c))
  {
    var w := queue[0].stream.written;
    var next := [queue[0].(stream := Open(w + c))] + queue[1..];
    assert next[1..] == queue[1..] && contents[0..] == contents;
    assert contents[0] == w + contents[0][|w|..];
    assert contents[0][|w + c|..] == contents[0][|w|..][|c|..];
  }

  /**
   * A chunk does no harm if it leaves its file short and is written, or if it ends its file, written or not, and the
   * next file that has bytes to come opens.
   */
  predicate InStep(queue: seq<Incoming>, c: Bytes, writes: bool, env: Env) {
    queue != [] && queue[0].stream.Open? ==>
      if |queue[0].stream.written| + |c| < queue[0].expectedSize then writes else NextOpens(queue[1..], env)
  }

  /** A chunk that fits the front file goes there, and only there. */
  lemma WriteHolds(queue: seq<Incoming>, contents: seq<Bytes>, c: Bytes, writes: bool, env: Env)
    requires Holds(queue, contents) && c != [] && InStep(queue, c, writes, env)
    requires var rests := NonEmpty(Rests(queue, contents)); rests != [] && c <= rests[0]
    ensures Carries(Write(queue, c, writes, env), contents, After(NonEmpty(Rests(queue, contents)), c))
  {
    var rests := Rests(queue, contents);
    var w := queue[0].stream.written;
    assert rests[0] == contents[0][|w|..] != [];
    assert contents[0] == w + rests[0];
    if c < rests[0] {
      WriteShort(queue, contents, c);
    } else {
      assert w + c == contents[0];
      var rest, left := StartNext(queue[1..], env), Write(queue, c, writes, env).left;
      StartNextHolds(queue[1..], contents[1..], env);
      CarriesOneMore(rest, left[0], contents, NonEmpty(Rests(queue[1..], contents[1..])));
    }
  }

  // ---- The invariant of the link ----

  function Content(disk: Disk, offered: map<Uuid, string>, u: Uuid): Bytes {
    if u in offered then disk(offered[u]) else []
  }

  function Contents(disk: Disk, offered: map<Uuid, string>, uuids: seq<Uuid>): (r: seq<Bytes>)
    ensures |r| == |uuids| && forall i | 0 <= i < |r| :: r[i] == Content(disk, offered, uuids[i])
  {
    seq(|uuids|, i requires 0 <= i < |uuids| => Content(disk, offered, uuids[i]))
  }

  function Queued(disk: Disk, fileQ: seq<string>): (r: seq<Bytes>)
    ensures |r| == |fileQ| && forall i | 0 <= i < |r| :: r[i] == disk(fileQ[i])
  {
    seq(|fileQ|, i requires 0 <= i < |fileQ| => disk(fileQ[i]))
  }

  function Coming(disk: Disk, offered: map<Uuid, string>, answers: seq<Answer>): seq<Bytes> {
    if answers == [] then []
    else (if answers[0].accepted then [Content(disk, offered, answers[0].uuid)] else []) +
         Coming(disk, offered, answers[1..])
  }

  /** The files the sender knows to be accepted: what is left of the one being sent, and those in its queue. */
  function Known(disk: Disk, current: Option<Bytes>, fileQ: seq<string>): seq<Bytes> {
    (if current.Some? then [current.value] else []) + Queued(disk, fileQ)
  }

  /** Everything the sender has still to put on the wire, the files whose acceptance is under way included. */
  function ToSend(disk: Disk, l: Link): seq<Bytes> {
    Known(disk, l.current, l.fileQ) + Coming(disk, l.offered, l.answers)
  }

  function Expected(disk: Disk, l: Link): seq<Bytes> {
    Contents(disk, l.offered, l.taken)
  }

  /** What the receiver's deque still waits for, file by file. */
  function ToReceive(disk: Disk, l: Link): seq<Bytes>
    requires |l.left| + |l.queue| == |l.taken|
  {
    Rests(l.queue, Expected(disk, l)[|l.left|..])
  }

  ghost predicate MessagesOk(disk: Disk, l: Link) {
    && (forall u | u in l.pending :: u in l.offered && l.pending[u] == l.offered[u])
    && (forall u | u in l.taken :: u in l.offered)
    && (forall i | 0 <= i < |l.offers| ::
          l.offers[i].uuid in l.pending && l.offers[i].size == |disk(l.pending[l.offers[i].uuid])|)
    && (forall i | 0 <= i < |l.answers| :: l.answers[i].uuid in l.pending)
    && (forall i, j | 0 <= i < j < |l.offers| :: l.offers[i].uuid != l.offers[j].uuid)
    && (forall i, j | 0 <= i < j < |l.answers| :: l.answers[i].uuid != l.answers[j].uuid)
    && (forall i, j | 0 <= i < |l.offers| && 0 <= j < |l.answers| :: l.offers[i].uuid != l.answers[j].uuid)
  }

  ghost predicate BytesOk(disk: Disk, l: Link) {
    && |l.left| + |l.queue| == |l.taken|
    && LeftWhole(l.left, Expected(disk, l)) && Holds(l.queue, Expected(disk, l)[|l.left|..])
    && Fits(l.wire, NonEmpty(ToReceive(disk, l)), NonEmpty(ToSend(disk, l)))
  }

  ghost predicate Inv(disk: Disk, l: Link) {
    MessagesOk(disk, l) && BytesOk(disk, l)
  }

  /** Bytes under way and bytes to come are, in order, the bytes the receiver waits for. */
  ghost predicate Aligned(disk: Disk, l: Link) {
    && |l.left| + |l.queue| == |l.taken|
    && Flat(l.wire) + Flat(ToSend(disk, l)) == Flat(ToReceive(disk, l))
  }

  lemma InvAligned(disk: Disk, l: Link)
    requires Inv(disk, l)
    ensures Aligned(disk, l)
  {
    FitsBytes(l.wire, NonEmpty(ToReceive(disk, l)), NonEmpty(ToSend(disk, l)));
    FlatNonEmpty(ToReceive(disk, l));
    FlatNonEmpty(ToSend(disk, l));
  }

  /**
   * What the environment must not do: lose the acceptance of a file that has bytes, take it without a channel to queue
   * it for, keep such a file from being locked and opened when its turn comes, at either end, break off reading it, or
   * fail to write any but the last of its chunks.
   */
  ghost predicate Harmless(disk: Disk, l: Link, e: Event) {
    Enabled(l, e) ==>
      match e
      case AnswerLost(i) => l.answers[i].accepted ==> Content(disk, l.offered, l.answers[i].uuid) == []
      case AnswerTaken(channel) =>
        !channel && l.answers[0].accepted ==> Content(disk, l.offered, l.answers[0].uuid) == []
      case Accepted(env) => l.queue != [] || env(l.offers[0].destination) == Opens || l.offers[0].size == 0
      case Delivered(writes, env) => InStep(l.queue, l.wire[0], writes, env)
      case Skipped => disk(l.fileQ[0]) == []
      case CutOff => false
      case _ => true
  }

  // ---- Every harmless event keeps it ----

  lemma NewOfferMessages(disk: Disk, max: nat, l: Link, e: Event)
    requires max > 0 && MessagesOk(disk, l) && Enabled(l, e) && (e.Offered? || e.Withdrawn?)
    ensures MessagesOk(disk, Step(disk, max, l, e))
  {}

  lemma LessOfferMessages(disk: Disk, max: nat, l: Link, e: Event)
    requires max > 0 && MessagesOk(disk, l) && Enabled(l, e) && (e.OfferLost? || e.Ignored?)
    ensures MessagesOk(disk, Step(disk, max, l, e))
  {}

  lemma VerdictMessages(disk: Disk, max: nat, l: Link, e: Event)
    requires max > 0 && MessagesOk(disk, l) && Enabled(l, e) && (e.Declined? || e.Accepted?)
    ensures MessagesOk(disk, Step(disk, max, l, e))
  {
    var n := Step(disk, max, l, e);
    assert forall i | 0 <= i < |n.offers| :: n.offers[i] == l.offers[i + 1];
    assert forall i | 0 <= i < |l.answers| :: n.answers[i] == l.answers[i];
  }

  lemma AnswerMessages(disk: Disk, max: nat, l: Link, e: Event)
    requires max > 0 && MessagesOk(disk, l) && Enabled(l, e) && (e.AnswerLost? || e.AnswerTaken?)
    ensures MessagesOk(disk, Step(disk, max, l, e))
  {}

  lemma MessagesKeep(disk: Disk, max: nat, l: Link, e: Event)
    requires max > 0 && MessagesOk(disk, l)
    ensures MessagesOk(disk, Step(disk, max, l, e))
  {
    if Enabled(l, e) {
      if e.Offered? || e.Withdrawn? {
        NewOfferMessages(disk, max, l, e);
      } else if e.OfferLost? || e.Ignored? {
        LessOfferMessages(disk, max, l, e);
      } else if e.Declined? || e.Accepted? {
        VerdictMessages(disk, max, l, e);
      } else if e.AnswerLost? || e.AnswerTaken? {
        AnswerMessages(disk, max, l, e);
      }
    }
  }

  lemma SameBytes(disk: Disk, l: Link, n: Link)
    requires BytesOk(disk, l) && NonEmpty(ToSend(disk, n)) == NonEmpty(ToSend(disk, l))
    requires Expected(disk, n) == Expected(disk, l)
    requires n.wire == l.wire && n.queue == l.queue && n.left == l.left && n.taken == l.taken
    ensures BytesOk(disk, n)
  {}

  lemma {:induction false} ComingGrows(disk: Disk, offered: map<Uuid, string>, u: Uuid, path: string,
                                       answers: seq<Answer>)
    requires u !in offered && forall i | 0 <= i < |answers| :: answers[i].uuid in offered
    ensures Coming(disk, offered[u := path], answers) == Coming(disk, offered, answers)
  {
    if answers != [] {
      ComingGrows(disk, offered, u, path, answers[1..]);
    }
  }

  lemma {:induction false} ComingConcat(disk: Disk, offered: map<Uuid, string>, a: seq<Answer>, b: seq<Answer>)
    ensures Coming(disk, offered, a + b) == Coming(disk, offered, a) + Coming(disk, offered, b)
  {
    if a == [] {
      assert a + b == b;
    } else {
      assert (a + b)[1..] == a[1..] + b;
      ComingConcat(disk, offered, a[1..], b);
      var first := if a[0].accepted then [Content(disk, offered, a[0].uuid)] else [];
      Assoc(first, Coming(disk, offered, a[1..]), Coming(disk, offered, b));
    }
  }

  lemma ComingAppend(disk: Disk, offered: map<Uuid, string>, answers: seq<Answer>, a: Answer)
    ensures Coming(disk, offered, answers + [a]) ==
            Coming(disk, offered, answers) + if a.accepted then [Content(disk, offered, a.uuid)] else []
  {
    ComingConcat(disk, offered, answers, [a]);
    assert [a][1..] == [];
  }

  /** A fresh offer changes no content already known. */
  lemma OfferedKeeps(disk: Disk, l: Link, n: Link, uuid: Uuid, path: string)
    requires BytesOk(disk, l) && uuid !in l.offered && forall u | u in l.taken :: u in l.offered
    requires forall i | 0 <= i < |l.answers| :: l.answers[i].uuid in l.offered
    requires n == l.(offers := n.offers, pending := n.pending, offered := l.offered[uuid := path])
    ensures BytesOk(disk, n)
  {
    ComingGrows(disk, l.offered, uuid, path, l.answers);
    assert forall i | 0 <= i < |l.taken| :: l.taken[i] in l.taken;
    assert Expected(disk, n) == Expected(disk, l);
    SameBytes(disk, l, n);
  }

  lemma DeclinedKeeps(disk: Disk, l: Link, n: Link, a: Answer)
    requires BytesOk(disk, l) && !a.accepted && n == l.(offers := n.offers, answers := l.answers + [a])
    ensures BytesOk(disk, n)
  {
    ComingAppend(disk, l.offered, l.answers, a);
    assert Coming(disk, l.offered, l.answers) + [] == Coming(disk, l.offered, l.answers);
  }

  lemma OneOpens(file: Incoming, env: Env)
    ensures NextOpens([file], env) <==> env(file.destination) == Opens || file.expectedSize == 0
  {
    assert [file][1..] == [];
  }

  lemma LeftConcat(a: seq<Left>, b: seq<Left>, contents: seq<Bytes>)
    requires LeftWhole(a, contents) && LeftWhole(b, contents[|a|..])
    ensures LeftWhole(a + b, contents)
  {
    forall i | |a| <= i < |a + b|
      ensures (a + b)[i].fate == Complete ==> (a + b)[i].content == contents[i]
      ensures (a + b)[i].fate == Complete || (a + b)[i].fate == WriteFailed || contents[i] == []
    {
      assert (a + b)[i] == b[i - |a|] && contents[|a|..][i - |a|] == contents[i];
    }
  }

  /** Moving the deque on moves the list of files that left it. */
  lemma DequeMoves(disk: Disk, l: Link, n: Link, r: Started, rests: seq<Bytes>)
    requires LeftWhole(l.left, Expected(disk, n))
    requires Carries(r, Expected(disk, n)[|l.left|..], rests) && n.queue == r.queue && n.left == l.left + r.left
    ensures |n.left| + |n.queue| == |n.taken|
    ensures LeftWhole(n.left, Expected(disk, n)) && Holds(n.queue, Expected(disk, n)[|n.left|..])
    ensures NonEmpty(ToReceive(disk, n)) == rests
  {
    var all := Expected(disk, n);
    LeftConcat(l.left, r.left, all);
    assert all[|l.left|..][|r.left|..] == all[|n.left|..];
  }

  lemma AcceptedExpected(disk: Disk, max: nat, l: Link, env: Env)
    requires max > 0 && l.offers != [] && |l.left| <= |l.taken|
    ensures var n, content := Step(disk, max, l, Accepted(env)), Content(disk, l.offered, l.offers[0].uuid);
            && Expected(disk, n) == Expected(disk, l) + [content]
            && Expected(disk, n)[|l.left|..] == Expected(disk, l)[|l.left|..] + [content]
  {
    var n := Step(disk, max, l, Accepted(env));
    assert Expected(disk, n) == Expected(disk, l) + [Content(disk, l.offered, l.offers[0].uuid)];
  }

  lemma AcceptedCarries(disk: Disk, l: Link, env: Env)
    requires Inv(disk, l) && l.offers != [] && Harmless(disk, l, Accepted(env))
    ensures var o, content := l.offers[0], Content(disk, l.offered, l.offers[0].uuid);
            Carries(Enqueue(l.queue, Incoming(o.destination, o.size, Unopened), env),
                    Expected(disk, l)[|l.left|..] + [content], NonEmpty(ToReceive(disk, l)) + NonEmpty([content]))
  {
    var o := l.offers[0];
    var file := Incoming(o.destination, o.size, Unopened);
    OneOpens(file, env);
    EnqueueHolds(l.queue, Expected(disk, l)[|l.left|..], file, Content(disk, l.offered, o.uuid), env);
  }

  lemma AcceptedReceives(disk: Disk, max: nat, l: Link, env: Env)
    requires max > 0 && Inv(disk, l) && l.offers != [] && Harmless(disk, l, Accepted(env))
    ensures var n := Step(disk, max, l, Accepted(env));
            && |n.left| + |n.queue| == |n.taken|
            && LeftWhole(n.left, Expected(disk, n)) && Holds(n.queue, Expected(disk, n)[|n.left|..])
            && NonEmpty(ToReceive(disk, n)) ==
               NonEmpty(ToReceive(disk, l)) + NonEmpty([Content(disk, l.offered, l.offers[0].uuid)])
  {
    var o, n := l.offers[0], Step(disk, max, l, Accepted(env));
    AcceptedExpected(disk, max, l, env);
    AcceptedCarries(disk, l, env);
    DequeMoves(disk, l, n, Enqueue(l.queue, Incoming(o.destination, o.size, Unopened), env),
               NonEmpty(ToReceive(disk, l)) + NonEmpty([Content(disk, l.offered, o.uuid)]));
  }

  lemma AcceptedKeeps(disk: Disk, max: nat, l: Link, env: Env)
    requires max > 0 && Inv(disk, l) && l.offers != [] && Harmless(disk, l, Accepted(env))
    ensures BytesOk(disk, Step(disk, max, l, Accepted(env)))
  {
    var u, n := l.offers[0].uuid, Step(disk, max, l, Accepted(env));
    var content := Content(disk, l.offered, u);
    AcceptedReceives(disk, max, l, env);
    AcceptedToSend(disk, l, n, u);
    NonEmptyConcat(ToSend(disk, l), [content]);
    FitsAppend(l.wire, NonEmpty(ToReceive(disk, l)), NonEmpty(ToSend(disk, l)), NonEmpty([content]));
  }

  lemma AcceptedToSend(disk: Disk, l: Link, n: Link, u: Uuid)
    requires n.answers == l.answers + [Answer(u, true)]
    requires n.current == l.current && n.fileQ == l.fileQ && n.offered == l.offered
    ensures ToSend(disk, n) == ToSend(disk, l) + [Content(disk, l.offered, u)]
  {
    ComingAppend(disk, l.offered, l.answers, Answer(u, true));
  }

  lemma DeliveredKeeps(disk: Disk, max: nat, l: Link, writes: bool, env: Env)
    requires max > 0 && BytesOk(disk, l) && l.wire != [] && Harmless(disk, l, Delivered(writes, env))
    ensures BytesOk(disk, Step(disk, max, l, Delivered(writes, env)))
  {
    var c, n := l.wire[0], Step(disk, max, l, Delivered(writes, env));
    assert Expected(disk, n) == Expected(disk, l) && ToSend(disk, n) == ToSend(disk, l);
    WriteHolds(l.queue, Expected(disk, l)[|l.left|..], c, writes, env);
    DequeMoves(disk, l, n, Write(l.queue, c, writes, env), After(NonEmpty(ToReceive(disk, l)), c));
  }

  lemma NonEmptyOne(file: Bytes)
    ensures NonEmpty([file]) == if file == [] then [] else [file]
  {
    assert [file][1..] == [];
  }

  /** The worker has the first file to send in hand. */
  lemma InHand(disk: Disk, l: Link, rest: Bytes)
    requires l.current == Some(rest)
    ensures var tail := Queued(disk, l.fileQ) + Coming(disk, l.offered, l.answers);
            ToSend(disk, l) == [rest] + tail &&
            NonEmpty(ToSend(disk, l)) == (if rest == [] then [] else [rest]) + NonEmpty(tail)
  {
    var tail := Queued(disk, l.fileQ) + Coming(disk, l.offered, l.answers);
    assert [rest] + tail == [rest] + Queued(disk, l.fileQ) + Coming(disk, l.offered, l.answers);
    NonEmptyConcat([rest], tail);
    NonEmptyOne(rest);
  }

  lemma ChunkSentKeeps(disk: Disk, max: nat, l: Link)
    requires max > 0 && BytesOk(disk, l) && l.current.Some? && l.current.value != []
    ensures BytesOk(disk, Step(disk, max, l, ChunkSent))
  {
    var rest := l.current.value;
    var c := rest[..Min(max, |rest|)];
    var n := Step(disk, max, l, ChunkSent);
    InHand(disk, l, rest);
    InHand(disk, n, rest[|c|..]);
    assert Expected(disk, n) == Expected(disk, l);
    FitsSend(l.wire, NonEmpty(ToReceive(disk, l)), NonEmpty(ToSend(disk, l)), c);
    assert NonEmpty(ToSend(disk, n)) == After(NonEmpty(ToSend(disk, l)), c);
  }

  lemma FileEndedKeeps(disk: Disk, max: nat, l: Link)
    requires max > 0 && BytesOk(disk, l) && l.current == Some([])
    ensures BytesOk(disk, Step(disk, max, l, FileEnded))
  {
    var n := Step(disk, max, l, FileEnded);
    InHand(disk, l, []);
    assert [] + Queued(disk, l.fileQ) == Queued(disk, l.fileQ);
    assert [] + NonEmpty(ToSend(disk, n)) == NonEmpty(ToSend(disk, n));
    SameBytes(disk, l, n);
  }

  lemma DequeuedKnown(disk: Disk, fileQ: seq<string>)
    requires fileQ != []
    ensures Known(disk, Some(disk(fileQ[0])), fileQ[1..]) == Known(disk, None, fileQ)
  {}

  lemma AnswerTakenToSend(disk: Disk, l: Link, channel: bool)
    requires MessagesOk(disk, l) && l.answers != [] && (channel || !l.answers[0].accepted)
    ensures ToSend(disk, TakeAnswer(l.(answers := l.answers[1..]), l.answers[0], channel)) == ToSend(disk, l)
  {
    var a := l.answers[0];
    var n := TakeAnswer(l.(answers := l.answers[1..]), a, channel);
    var content := Content(disk, l.offered, a.uuid);
    if a.accepted {
      assert Known(disk, n.current, n.fileQ) == Known(disk, l.current, l.fileQ) + [content];
      Assoc(Known(disk, l.current, l.fileQ), [content], Coming(disk, l.offered, n.answers));
    } else {
      Assoc([], [], Coming(disk, l.offered, n.answers));
    }
  }

  /** An acceptance taken without a channel takes its file out of what is to be sent. */
  lemma AnswerUnheardToSend(disk: Disk, l: Link) returns (a: seq<Bytes>, content: Bytes, b: seq<Bytes>)
    requires MessagesOk(disk, l) && l.answers != [] && l.answers[0].accepted
    ensures content == Content(disk, l.offered, l.answers[0].uuid)
    ensures ToSend(disk, l) == a + [content] + b
    ensures ToSend(disk, TakeAnswer(l.(answers := l.answers[1..]), l.answers[0], false)) == a + b
  {
    content := Content(disk, l.offered, l.answers[0].uuid);
    a, b := Known(disk, l.current, l.fileQ), Coming(disk, l.offered, l.answers[1..]);
    Assoc(a, [content], b);
  }

  lemma AnswerTakenKeeps(disk: Disk, max: nat, l: Link, channel: bool)
    requires max > 0 && Inv(disk, l) && l.answers != [] && Harmless(disk, l, AnswerTaken(channel))
    ensures BytesOk(disk, Step(disk, max, l, AnswerTaken(channel)))
  {
    var n := Step(disk, max, l, AnswerTaken(channel));
    if channel || !l.answers[0].accepted {
      AnswerTakenToSend(disk, l, channel);
    } else {
      var a, content, b := AnswerUnheardToSend(disk, l);
      WithoutEmpty(a, b);
    }
    SameBytes(disk, l, n);
  }

  lemma WithoutEmpty(a: seq<Bytes>, b: seq<Bytes>)
    ensures NonEmpty(a + [[]] + b) == NonEmpty(a + b)
  {
    NonEmptyConcat(a + [[]], b);
    NonEmptyConcat(a, [[]]);
    NonEmptyConcat(a, b);
    NonEmptyOne([]);
    Assoc(NonEmpty(a), [], []);
  }

  /** Losing an answer takes its file, if it accepts one, out of the middle of what is to be sent. */
  lemma AnswerLostToSend(disk: Disk, l: Link, i: nat) returns (a: seq<Bytes>, lost: seq<Bytes>, b: seq<Bytes>)
    requires i < |l.answers|
    ensures lost == if l.answers[i].accepted then [Content(disk, l.offered, l.answers[i].uuid)] else []
    ensures ToSend(disk, l) == a + lost + b && ToSend(disk, l.(answers := Without(l.answers, i))) == a + b
  {
    var before, after := l.answers[..i], l.answers[i + 1..];
    assert l.answers == before + [l.answers[i]] + after;
    ComingConcat(disk, l.offered, before + [l.answers[i]], after);
    ComingAppend(disk, l.offered, before, l.answers[i]);
    ComingConcat(disk, l.offered, before, after);
    var known := Known(disk, l.current, l.fileQ);
    lost := if l.answers[i].accepted then [Content(disk, l.offered, l.answers[i].uuid)] else [];
    a, b := known + Coming(disk, l.offered, before), Coming(disk, l.offered, after);
    assert known + (Coming(disk, l.offered, before) + lost + b) == a + lost + b;
    assert known + (Coming(disk, l.offered, before) + b) == a + b;
  }

  lemma AnswerLostKeeps(disk: Disk, max: nat, l: Link, i: nat)
    requires max > 0 && BytesOk(disk, l) && i < |l.answers| && Harmless(disk, l, AnswerLost(i))
    ensures BytesOk(disk, Step(disk, max, l, AnswerLost(i)))
  {
    var n := Step(disk, max, l, AnswerLost(i));
    var a, lost, b := AnswerLostToSend(disk, l, i);
    NonEmptyConcat(a + lost, b);
    NonEmptyConcat(a, lost);
    NonEmptyConcat(a, b);
    NonEmptyOne([]);
    assert NonEmpty(a) + [] == NonEmpty(a);
    assert Expected(disk, n) == Expected(disk, l);
  }

  /** A file the worker cannot open is no longer to be sent. */
  lemma SkippedToSend(disk: Disk, l: Link)
    requires l.current.None? && l.fileQ != []
    ensures ToSend(disk, l) == [disk(l.fileQ[0])] + ToSend(disk, l.(fileQ := l.fileQ[1..]))
  {
    var first, rest := [disk(l.fileQ[0])], Queued(disk, l.fileQ[1..]);
    assert Queued(disk, l.fileQ) == first + rest;
    assert Known(disk, None, l.fileQ) == first + rest && Known(disk, None, l.fileQ[1..]) == rest;
    Assoc(first, rest, Coming(disk, l.offered, l.answers));
  }

  lemma SkippedKeeps(disk: Disk, max: nat, l: Link)
    requires max > 0 && BytesOk(disk, l) && Enabled(l, Skipped) && Harmless(disk, l, Skipped)
    ensures BytesOk(disk, Step(disk, max, l, Skipped))
  {
    var n := Step(disk, max, l, Skipped);
    SkippedToSend(disk, l);
    Assoc([], [], NonEmpty(ToSend(disk, n)));
    SameBytes(disk, l, n);
  }

  lemma OfferStepKeeps(disk: Disk, max: nat, l: Link, e: Event)
    requires max > 0 && Inv(disk, l) && Enabled(l, e) && Harmless(disk, l, e)
    requires e.Offered? || e.Withdrawn? || e.OfferLost? || e.Ignored? || e.Declined?
    ensures BytesOk(disk, Step(disk, max, l, e))
  {
    var n := Step(disk, max, l, e);
    match e
    case Offered(uuid, path, _) => OfferedKeeps(disk, l, n, uuid, path);
    case Withdrawn(uuid, path) => OfferedKeeps(disk, l, n, uuid, path);
    case Declined => DeclinedKeeps(disk, l, n, Answer(l.offers[0].uuid, false));
    case _ => SameBytes(disk, l, n);
  }

  lemma DequeuedKeeps(disk: Disk, max: nat, l: Link)
    requires max > 0 && BytesOk(disk, l) && Enabled(l, Dequeued)
    ensures BytesOk(disk, Step(disk, max, l, Dequeued))
  {
    DequeuedKnown(disk, l.fileQ);
    SameBytes(disk, l, Step(disk, max, l, Dequeued));
  }

  lemma TransferStepKeeps(disk: Disk, max: nat, l: Link, e: Event)
    requires max > 0 && Inv(disk, l) && Enabled(l, e) && Harmless(disk, l, e)
    requires !(e.Offered? || e.Withdrawn? || e.OfferLost? || e.Ignored? || e.Declined?)
    ensures BytesOk(disk, Step(disk, max, l, e))
  {
    match e
    case Accepted(env) => AcceptedKeeps(disk, max, l, env);
    case AnswerLost(i) => AnswerLostKeeps(disk, max, l, i);
    case AnswerTaken(channel) => AnswerTakenKeeps(disk, max, l, channel);
    case Dequeued => DequeuedKeeps(disk, max, l);
    case ChunkSent => ChunkSentKeeps(disk, max, l);
    case FileEnded => FileEndedKeeps(disk, max, l);
    case Skipped => SkippedKeeps(disk, max, l);
    case Delivered(writes, env) => DeliveredKeeps(disk, max, l, writes, env);
  }

  lemma {:induction false} StepKeeps(disk: Disk, max: nat, l: Link, e: Event)
    requires max > 0 && Inv(disk, l) && Harmless(disk, l, e)
    ensures Inv(disk, Step(disk, max, l, e))
  {
    MessagesKeep(disk, max, l, e);
    if Enabled(l, e) {
      if e.Offered? || e.Withdrawn? || e.OfferLost? || e.Ignored? || e.Declined? {
        OfferStepKeeps(disk, max, l, e);
      } else {
        TransferStepKeeps(disk, max, l, e);
      }
    }
  }

  ghost predicate HarmlessRun(disk: Disk, max: nat, events: seq<Event>)
    requires max > 0
  {
    forall k | 0 <= k < |events| :: Harmless(disk, Run(disk, max, events[..k]), events[k])
  }

  lemma HarmlessLast(disk: Disk, max: nat, events: seq<Event>)
    requires max > 0 && HarmlessRun(disk, max, events) && events != []
    ensures var k := |events| - 1;
            HarmlessRun(disk, max, events[..k]) && Harmless(disk, Run(disk, max, events[..k]), events[k])
  {
    var k := |events| - 1;
    assert forall j | 0 <= j < k :: events[..k][..j] == events[..j] && events[..k][j] == events[j];
  }

  lemma {:induction false} RunKeeps(disk: Disk, max: nat, events: seq<Event>)
    requires max > 0 && HarmlessRun(disk, max, events)
    ensures Inv(disk, Run(disk, max, events))
  {
    if events != [] {
      var k := |events| - 1;
      HarmlessLast(disk, max, events);
      RunKeeps(disk, max, events[..k]);
      StepKeeps(disk, max, Run(disk, max, events[..k]), events[k]);
    }
  }

  /** End-to-end alignment under every interleaving, empty files included. */
  lemma {:induction false} EndToEndAlignment(disk: Disk, max: nat, events: seq<Event>)
    requires max > 0 && HarmlessRun(disk, max, events)
    ensures Inv(disk, Run(disk, max, events)) && Aligned(disk, Run(disk, max, events))
  {
    RunKeeps(disk, max, events);
    InvAligned(disk, Run(disk, max, events));
  }

  /**
   * The i-th file to leave the deque answers the i-th offer accepted: closed as complete, it is that file byte for
   * byte, and only one that is empty or whose last write failed can have left in any other way.
   */
  lemma {:induction false} FilesArriveIdentical(disk: Disk, max: nat, events: seq<Event>, i: nat)
    requires max > 0 && HarmlessRun(disk, max, events) && i < |Run(disk, max, events).left|
    ensures var l := Run(disk, max, events);
            && i < |l.taken| && l.taken[i] in l.offered
            && var file := disk(l.offered[l.taken[i]]);
               && (l.left[i].fate == Complete ==> l.left[i].content == file)
               && (l.left[i].fate == Complete || l.left[i].fate == WriteFailed || file == [])
  {
    RunKeeps(disk, max, events);
    var l := Run(disk, max, events);
    assert Expected(disk, l)[i] == Content(disk, l.offered, l.taken[i]);
  }

  lemma Drained(disk: Disk, l: Link)
    requires Inv(disk, l) && l.answers == [] && l.fileQ == [] && l.current == None && l.wire == []
    ensures l.queue == [] && |l.left| == |l.taken|
  {
    assert ToSend(disk, l) == [];
  }

  /** Once nothing is under way, every accepted file has arrived. */
  lemma {:induction false} DrainedMeansArrived(disk: Disk, max: nat, events: seq<Event>)
    requires max > 0 && HarmlessRun(disk, max, events)
    requires var l := Run(disk, max, events); l.answers == [] && l.fileQ == [] && l.current == None && l.wire == []
    ensures var l := Run(disk, max, events); l.queue == [] && |l.left| == |l.taken|
  {
    RunKeeps(disk, max, events);
    Drained(disk, Run(disk, max, events));
  }

  // ---- And no other event does ----

  /** The bytes of the files that were given up for want of a lock or an open. */
  function Dropped(left: seq<Left>): nat {
    if left == [] then 0
    else (if left[0].fate != Complete && left[0].file.expectedSize > 0 then left[0].file.expectedSize else 0)
         + Dropped(left[1..])
  }

  /** Starting the next file gives up bytes exactly when the first file that has some does not open. */
  lemma {:induction false} StartDropsExactly(queue: seq<Incoming>, contents: seq<Bytes>, env: Env)
    requires Waiting(queue, contents)
    ensures Dropped(StartNext(queue, env).left) == 0 <==> NextOpens(queue, env)
  {
    if queue != [] && !(queue[0].expectedSize != 0 && env(queue[0].destination) == Opens) {
      StartDropsExactly(queue[1..], contents[1..], env);
      assert StartNext(queue, env).left[1..] == StartNext(queue[1..], env).left;
    }
  }

  lemma {:induction false} StartNextLength(queue: seq<Incoming>, contents: seq<Bytes>, env: Env)
    requires Waiting(queue, contents)
    ensures var r := StartNext(queue, env);
            && |r.left| + |r.queue| == |contents|
            && |Flat(Rests(r.queue, contents[|r.left|..]))| + Dropped(r.left) == |Flat(Rests(queue, contents))|
  {
    if queue == [] {
    } else if queue[0].expectedSize != 0 && env(queue[0].destination) == Opens {
      assert contents[0..] == contents;
      assert ([queue[0].(stream := Open([]))] + queue[1..])[1..] == queue[1..];
    } else {
      StartNextLength(queue[1..], contents[1..], env);
      var rest, r := StartNext(queue[1..], env), StartNext(queue, env);
      assert contents[1..][|rest.left|..] == contents[|r.left|..];
      assert r.left[1..] == rest.left;
      assert Rests(queue, contents)[1..] == Rests(queue[1..], contents[1..]);
    }
  }

  /** A front file that leaves takes all it waited for with it, and so does every file dropped behind it. */
  lemma FrontGone(queue: seq<Incoming>, contents: seq<Bytes>, c: Bytes, writes: bool, env: Env)
    requires Holds(queue, contents) && queue != []
    requires !writes || |queue[0].stream.written| + |c| >= queue[0].expectedSize
    ensures var r := Write(queue, c, writes, env);
            && |r.left| + |r.queue| == |contents|
            && |Flat(Rests(r.queue, contents[|r.left|..]))| + Dropped(StartNext(queue[1..], env).left)
               + (|contents[0]| - |queue[0].stream.written|) == |Flat(Rests(queue, contents))|
  {
    StartNextLength(queue[1..], contents[1..], env);
    var rest, r := StartNext(queue[1..], env), Write(queue, c, writes, env);
    assert r.left[1..] == rest.left;
    assert contents[1..][|rest.left|..] == contents[|r.left|..];
    assert Rests(queue, contents)[1..] == Rests(queue[1..], contents[1..]);
  }

  /** A file with bytes that the sender will not send is missed by the receiver. */
  lemma MissedFile(disk: Disk, l: Link, n: Link, a: seq<Bytes>, file: Bytes, b: seq<Bytes>)
    requires Inv(disk, l) && file != [] && ToSend(disk, l) == a + [file] + b && ToSend(disk, n) == a + b
    requires n.wire == l.wire && n.queue == l.queue && n.left == l.left && n.taken == l.taken && n.offered == l.offered
    ensures !Aligned(disk, n)
  {
    InvAligned(disk, l);
    FlatConcat(a + [file], b);
    FlatConcat(a, [file]);
    FlatConcat(a, b);
    assert [file][1..] == [] && Flat([file]) == file + [];
    assert Expected(disk, n) == Expected(disk, l);
  }

  lemma AnswerLostBreaks(disk: Disk, max: nat, l: Link, i: nat)
    requires max > 0 && Inv(disk, l) && i < |l.answers| && !Harmless(disk, l, AnswerLost(i))
    ensures !Aligned(disk, Step(disk, max, l, AnswerLost(i)))
  {
    var a, lost, b := AnswerLostToSend(disk, l, i);
    MissedFile(disk, l, Step(disk, max, l, AnswerLost(i)), a, lost[0], b);
  }

  lemma AnswerTakenBreaks(disk: Disk, max: nat, l: Link, channel: bool)
    requires max > 0 && Inv(disk, l) && l.answers != [] && !Harmless(disk, l, AnswerTaken(channel))
    ensures !Aligned(disk, Step(disk, max, l, AnswerTaken(channel)))
  {
    var a, content, b := AnswerUnheardToSend(disk, l);
    MissedFile(disk, l, Step(disk, max, l, AnswerTaken(channel)), a, content, b);
  }

  lemma SourceBreaks(disk: Disk, max: nat, l: Link, e: Event)
    requires max > 0 && Inv(disk, l) && Enabled(l, e) && !Harmless(disk, l, e) && (e.Skipped? || e.CutOff?)
    ensures !Aligned(disk, Step(disk, max, l, e))
  {
    var n := Step(disk, max, l, e);
    var file := if e.Skipped? then disk(l.fileQ[0]) else l.current.value;
    if e.Skipped? {
      SkippedToSend(disk, l);
    } else {
      InHand(disk, l, file);
      Assoc([], [], Queued(disk, l.fileQ));
    }
    Assoc([], [], ToSend(disk, n));
    assert [] + [file] == [file];
    MissedFile(disk, l, n, [], file, ToSend(disk, n));
  }

  lemma AcceptedBreaks(disk: Disk, max: nat, l: Link, env: Env)
    requires max > 0 && Inv(disk, l) && l.offers != [] && !Harmless(disk, l, Accepted(env))
    ensures !Aligned(disk, Step(disk, max, l, Accepted(env)))
  {
    var o, n := l.offers[0], Step(disk, max, l, Accepted(env));
    var file := Incoming(o.destination, o.size, Unopened);
    assert [file][1..] == [] && StartNext([], env) == Started([], []);
    assert n.queue == [];
    AcceptedToSend(disk, l, n, o.uuid);
    var content := Content(disk, l.offered, o.uuid);
    FlatConcat(ToSend(disk, l), [content]);
    assert Flat([content]) == content + Flat([content][1..]);
    assert |Flat(ToSend(disk, n))| > 0;
  }

  /** A chunk that is out of step makes the deque give up more than the bytes it brings. */
  lemma ChunkLoses(queue: seq<Incoming>, contents: seq<Bytes>, c: Bytes, writes: bool, env: Env)
    requires Holds(queue, contents) && queue != [] && !InStep(queue, c, writes, env)
    requires |queue[0].stream.written| + |c| <= |contents[0]|
    ensures var r := Write(queue, c, writes, env);
            && |r.left| + |r.queue| == |contents|
            && |Flat(Rests(r.queue, contents[|r.left|..]))| + |c| < |Flat(Rests(queue, contents))|
  {
    FrontGone(queue, contents, c, writes, env);
    StartDropsExactly(queue[1..], contents[1..], env);
  }

  /** What the deque waits for after a chunk, in terms of the deque alone. */
  lemma DeliveredRests(disk: Disk, max: nat, l: Link, writes: bool, env: Env)
    requires max > 0 && l.wire != [] && |l.left| + |l.queue| == |l.taken|
    requires var r := Write(l.queue, l.wire[0], writes, env); |r.left| + |r.queue| == |l.queue|
    ensures var n, r := Step(disk, max, l, Delivered(writes, env)), Write(l.queue, l.wire[0], writes, env);
            && |n.left| + |n.queue| == |n.taken|
            && ToReceive(disk, n) == Rests(r.queue, Expected(disk, l)[|l.left|..][|r.left|..])
  {
    var n, r := Step(disk, max, l, Delivered(writes, env)), Write(l.queue, l.wire[0], writes, env);
    assert Expected(disk, n) == Expected(disk, l);
    assert Expected(disk, l)[|l.left|..][|r.left|..] == Expected(disk, l)[|n.left|..];
  }

  lemma DeliveredLength(disk: Disk, max: nat, l: Link, writes: bool, env: Env)
    requires max > 0 && BytesOk(disk, l) && l.wire != [] && !Harmless(disk, l, Delivered(writes, env))
    ensures var n, c := Step(disk, max, l, Delivered(writes, env)), l.wire[0];
            && |n.left| + |n.queue| == |n.taken|
            && |Flat(ToReceive(disk, n))| + |c| < |Flat(ToReceive(disk, l))|
  {
    var contents := Expected(disk, l)[|l.left|..];
    FitsFront(l.queue, contents, l.wire[0]);
    ChunkLoses(l.queue, contents, l.wire[0], writes, env);
    DeliveredRests(disk, max, l, writes, env);
  }

  lemma DeliveredBreaks(disk: Disk, max: nat, l: Link, writes: bool, env: Env)
    requires max > 0 && Inv(disk, l) && l.wire != [] && !Harmless(disk, l, Delivered(writes, env))
    ensures !Aligned(disk, Step(disk, max, l, Delivered(writes, env)))
  {
    var c, n := l.wire[0], Step(disk, max, l, Delivered(writes, env));
    InvAligned(disk, l);
    DeliveredLength(disk, max, l, writes, env);
    assert |Flat(l.wire)| == |c| + |Flat(n.wire)|;
    assert ToSend(disk, n) == ToSend(disk, l);
  }

  /** The chunk that arrives first is part of what the front file waits for. */
  lemma FitsFront(queue: seq<Incoming>, contents: seq<Bytes>, c: Bytes)
    requires Holds(queue, contents)
    requires var rests := NonEmpty(Rests(queue, contents)); rests != [] && c <= rests[0]
    ensures queue != [] && |queue[0].stream.written| + |c| <= |contents[0]| == queue[0].expectedSize
  {
    assert contents[0] == queue[0].stream.written + Rests(queue, contents)[0];
    assert NonEmpty(Rests(queue, contents))[0] == Rests(queue, contents)[0];
  }

  /** From an orderly state an event keeps the byte streams aligned if and only if it is harmless. */
  lemma AlignedExactly(disk: Disk, max: nat, l: Link, e: Event)
    requires max > 0 && Inv(disk, l)
    ensures Aligned(disk, Step(disk, max, l, e)) <==> Harmless(disk, l, e)
  {
    if Harmless(disk, l, e) {
      StepKeeps(disk, max, l, e);
      InvAligned(disk, Step(disk, max, l, e));
    } else {
      match e
      case AnswerLost(i) => AnswerLostBreaks(disk, max, l, i);
      case Skipped => SourceBreaks(disk, max, l, e);
      case CutOff => SourceBreaks(disk, max, l, e);
      case Accepted(env) => AcceptedBreaks(disk, max, l, env);
      case AnswerTaken(channel) => AnswerTakenBreaks(disk, max, l, channel);
      case Delivered(writes, env) => DeliveredBreaks(disk, max, l, writes, env);
    }
  }
}
