/**
 * The server's relays and the two clients' tables are those of the session model: handling a file message is one relay
 * or one loss of it (src/WebRTCServer.cpp), and what the sender does with a response, and the receiver with an offer or
 * a chunk, are the session's steps (src/WebRTCClient.cpp).
 */
module Delivery {
  import opened Wrappers
  import opened Files
  import opened Messages
  import opened Paths
  import A = Alignment
  import N = Session
  import R = Receiver
  import S = Server
  import P = Sender

  /** The directory each client receives into. */
  type Directories = string -> string

  /** What a file message says, between the two ends of its trip; nothing if it is not an offer or an answer. */
  function Says(doc: Doc, trip: N.Trip, directory: string): Option<N.Message> {
    if doc.uuid.None? then None else
    match doc.kind
    case FileOffer =>
      if doc.file.None? || doc.file.value.size < 0 then None else
      var destination := Destination(directory, doc.file.value.name);
      if destination.None? then None
      else Some(N.OfferMessage(trip, A.Offer(doc.uuid.value, doc.file.value.size, destination.value)))
    case FileAccept => Some(N.AnswerMessage(trip, A.Answer(doc.uuid.value, true)))
    case FileReject => Some(N.AnswerMessage(trip, A.Answer(doc.uuid.value, false)))
    case _ => None
  }

  /** A message that client `from` sends names the client it is for. */
  function Sent(doc: Doc, from: string, directories: Directories): Option<N.Message> {
    if doc.peer.None? || doc.room.None? then None
    else if doc.kind.FileOffer? then
      Says(doc, N.Trip(from, doc.peer.value, doc.room.value), directories(doc.peer.value))
    else Says(doc, N.Trip(doc.peer.value, from, doc.room.value), "")
  }

  /** A message that client `reader` gets names the client it is from. */
  function Got(doc: Doc, reader: string, directories: Directories): Option<N.Message> {
    if doc.peer.None? || doc.room.None? then None
    else if doc.kind.FileOffer? then Says(doc, N.Trip(doc.peer.value, reader, doc.room.value), directories(reader))
    else Says(doc, N.Trip(reader, doc.peer.value, doc.room.value), "")
  }

  /** The offers and answers on a client's connection. */
  function FileMessages(queue: seq<S.Message>, reader: string, directories: Directories): seq<N.Message> {
    if queue == [] then [] else
    var n := |queue| - 1;
    var got := if queue[n].Relay? then Got(queue[n].doc, reader, directories) else None;
    FileMessages(queue[..n], reader, directories) + if got.Some? then [got.value] else []
  }

  /** What is on the way to a client over the connection that the server's table leads to. */
  function DownTo(s: S.State, c: string, directories: Directories): seq<N.Message> {
    if c in s.db && s.db[c] in s.names && s.names[s.db[c]] == c && s.db[c] in s.queues
    then FileMessages(s.queues[s.db[c]], c, directories) else []
  }

  ghost predicate Carries(s: S.State, n: N.Net, directories: Directories) {
    forall c :: N.Down(n, c) == DownTo(s, c, directories)
  }

  /** Turned round by the server, a message says to the one what the other said. */
  lemma TurnedRound(doc: Doc, from: string, directories: Directories)
    requires doc.peer.Some?
    ensures Got(doc.(peer := Some(from)), doc.peer.value, directories) == Sent(doc, from, directories)
  {}

  lemma OneMoreMessage(queue: seq<S.Message>, m: S.Message, reader: string, directories: Directories)
    ensures var got := if m.Relay? then Got(m.doc, reader, directories) else None;
            FileMessages(queue + [m], reader, directories) ==
            FileMessages(queue, reader, directories) + if got.Some? then [got.value] else []
  {
    assert (queue + [m])[..|queue|] == queue;
  }

  /** Only the client a message is for finds it on its connection. */
  lemma Handled(s: S.State, sock: S.Socket, doc: Doc, directories: Directories, c: string)
    requires S.Live(s) && sock in s.names
    ensures var said := Sent(doc, s.names[sock], directories);
            DownTo(S.HandleDoc(s, sock, doc), c, directories) == DownTo(s, c, directories) +
              if S.Relayed(s, sock, doc) && c == doc.peer.value && said.Some? then [said.value] else []
  {
    Assoc(DownTo(s, c, directories), [], []);
    if S.Relayed(s, sock, doc) {
      assert doc.peer.value in s.rooms[doc.room.value];
      var to := s.db[doc.peer.value];
      TurnedRound(doc, s.names[sock], directories);
      OneMoreMessage(s.queues[to], S.Relay(doc.(peer := Some(s.names[sock]))), doc.peer.value, directories);
    }
  }

  lemma RelayDown(n: N.Net, from: string, c: string, disk: A.Disk, max: nat)
    requires max > 0 && N.Up(n, from) != []
    ensures var m := N.Up(n, from)[0];
            N.Down(N.Step(disk, max, n, N.Relay(from)), c) == N.Down(n, c) + if N.Addressee(m) == c then [m] else []
    ensures N.Down(N.Step(disk, max, n, N.Drop(from)), c) == N.Down(n, c)
  {
    Assoc(N.Down(n, c), [], []);
  }

  /** Taking the first message of a client's connection, the server relays it or loses it, and does nothing else. */
  lemma RelayOrDrop(s: S.State, sock: S.Socket, doc: Doc, n: N.Net, directories: Directories, disk: A.Disk, max: nat)
    requires max > 0 && S.Live(s) && sock in s.names && Carries(s, n, directories)
    requires Sent(doc, s.names[sock], directories).Some? && N.Up(n, s.names[sock]) != []
    requires N.Up(n, s.names[sock])[0] == Sent(doc, s.names[sock], directories).value
    ensures var from := s.names[sock];
            var event := if S.Relayed(s, sock, doc) then N.Relay(from) else N.Drop(from);
            Carries(S.HandleDoc(s, sock, doc), N.Step(disk, max, n, event), directories)
  {
    var from := s.names[sock];
    var m := Sent(doc, from, directories).value;
    var event := if S.Relayed(s, sock, doc) then N.Relay(from) else N.Drop(from);
    var after := N.Step(disk, max, n, event);
    assert N.Addressee(m) == doc.peer.value;
    forall c ensures N.Down(after, c) == DownTo(S.HandleDoc(s, sock, doc), c, directories) {
      Handled(s, sock, doc, directories, c);
      RelayDown(n, from, c, disk, max);
      Assoc(DownTo(s, c, directories), [], []);
    }
  }

  /** Any other message of a client leaves the offers and answers on the way as they are. */
  lemma OtherMessages(s: S.State, sock: S.Socket, doc: Doc, n: N.Net, directories: Directories)
    requires S.Live(s) && sock in s.names && Carries(s, n, directories)
    requires Sent(doc, s.names[sock], directories).None?
    ensures Carries(S.HandleDoc(s, sock, doc), n, directories)
  {
    forall c ensures N.Down(n, c) == DownTo(S.HandleDoc(s, sock, doc), c, directories) {
      Handled(s, sock, doc, directories, c);
      Assoc(DownTo(s, c, directories), [], []);
    }
  }

  // ---- The sender's tables ----

  function TripOf(c: string, key: R.Key): N.Trip {
    N.Trip(c, key.peer, key.room)
  }

  function PendingOn(c: string, offers: map<P.Uuid, P.PendingOffer>): map<P.Uuid, N.Pending> {
    map u | u in offers :: N.Pending(TripOf(c, offers[u].key), offers[u].path)
  }

  /** Client c's pending offers, and the queues of the channels in its table, are those of the session. */
  ghost predicate Tables(s: P.State, n: N.Net, c: string) {
    && N.PendingOf(n, c) == PendingOn(c, s.pending)
    && forall k | k in s.channels && s.channels[k] in s.lines ::
         N.EndsOf(n, TripOf(c, k)).fileQ == s.lines[s.channels[k]].items
  }

  /** Handling a response is the session's step, with or without a channel as the client's own table has it. */
  lemma RespondIsTakeAnswer(s: P.State, n: N.Net, c: string, u: P.Uuid, accepts: bool)
    requires Tables(s, n, c) && P.Addressed(s)
    ensures var channel := u in s.pending && s.pending[u].key in s.channels;
            Tables(P.Respond(s, Some(u), accepts), N.TakeAnswer(n, c, A.Answer(u, accepts), channel), c)
  {
    if u in s.pending {
      assert N.PendingOf(n, c)[u] == N.Pending(TripOf(c, s.pending[u].key), s.pending[u].path);
      assert PendingOn(c, s.pending) - {u} == PendingOn(c, s.pending - {u});
    }
  }

  /** A worker that takes its next path takes the file that the session takes next. */
  lemma GiveIsDequeue(s: P.State, n: N.Net, c: string, k: R.Key, disk: A.Disk, max: nat)
    requires max > 0 && Tables(s, n, c) && P.Addressed(s) && k in s.channels
    requires s.lines[s.channels[k]].items != [] && N.EndsOf(n, TripOf(c, k)).current.None?
    ensures var line, after := s.lines[s.channels[k]], N.Step(disk, max, n, N.Dequeue(TripOf(c, k)));
            && Tables(P.Step(s, P.Dequeued(s.channels[k])), after, c)
            && N.EndsOf(after, TripOf(c, k)).current == Some(disk(line.items[0]))
  {}

  /** An offer the client makes is one the session knows, with the file's own length, unless its name leads nowhere. */
  lemma MadeOfferCounts(cwd: Path, directory: string, offer: P.PendingOffer, uuid: P.Uuid, content: Bytes,
                        mimeType: string, me: string, directories: Directories)
    requires cwd.root && WellFormed(cwd)
    ensures var destination := Destination(directories(offer.key.peer), OfferedName(cwd, directory, offer.path));
            Sent(P.OfferMade(cwd, directory, offer, uuid, content, mimeType), me, directories) ==
            if destination.None? then None
            else Some(N.OfferMessage(TripOf(me, offer.key), A.Offer(uuid, |content|, destination.value)))
  {
    OfferedNameNotEmpty(cwd, directory, offer.path);
  }

  // ---- The receiver's deques ----

  function TripTo(key: R.Key, c: string): N.Trip {
    N.Trip(key.peer, c, key.room)
  }

  /** Client c's deques, and what left them, are those of the session. */
  ghost predicate Deques(s: R.Inbox, n: N.Net, c: string) {
    forall key ::
      && N.EndsOf(n, TripTo(key, c)).queue == R.Queue(s, key)
      && N.EndsOf(n, TripTo(key, c)).left == R.LeftOf(s, key)
  }

  /** The receiver's judgement of an offer is one of the session's verdicts, on the same key and the same file. */
  lemma JudgedAsOffered(doc: Doc, c: string, directories: Directories, prepared: bool, existing: Option<Bytes>)
    requires doc.kind.FileOffer? && Got(doc, c, directories).Some?
    ensures var m := Got(doc, c, directories).value;
            && m.OfferMessage? && m.trip.receiver == c
            && (R.Judge(directories(c), doc, prepared, existing).Ignored? <==> !prepared)
            && match R.Judge(directories(c), doc, prepared, existing)
               case Ignored => !prepared
               case Refused =>
                 RejectReply(doc).Some? &&
                 Sent(RejectReply(doc).value, c, directories) ==
                 Some(N.AnswerMessage(m.trip, A.Answer(m.offer.uuid, false)))
               case Taken(key, file) =>
                 && TripTo(key, c) == m.trip && file == R.Incoming(m.offer.destination, m.offer.size, R.Unopened)
                 && AcceptReply(doc).Some?
                 && Sent(AcceptReply(doc).value, c, directories) ==
                    Some(N.AnswerMessage(m.trip, A.Answer(m.offer.uuid, true)))
  {}

  /** Taking a file in is the session's acceptance of its offer. */
  lemma AcceptIsTake(s: R.Inbox, n: N.Net, c: string, m: N.Message, env: R.Env)
    requires Deques(s, n, c) && m.OfferMessage? && m.trip.receiver == c
    ensures var key := R.Key(m.trip.sender, m.trip.room);
            Deques(R.Accept(s, key, R.Incoming(m.offer.destination, m.offer.size, R.Unopened), env),
                   N.TakeOffer(n, m, N.Accept(env)), c)
  {
    var key := R.Key(m.trip.sender, m.trip.room);
    var r := R.Enqueue(R.Queue(s, key), R.Incoming(m.offer.destination, m.offer.size, R.Unopened), env);
    Stored(s, n, c, N.TakeOffer(n, m, N.Accept(env)), key, r);
  }

  /** Writing a chunk is the session's delivery of it. */
  lemma ChunkIsDeliver(s: R.Inbox, n: N.Net, c: string, key: R.Key, writes: bool, env: R.Env, disk: A.Disk, max: nat)
    requires max > 0 && Deques(s, n, c) && N.EndsOf(n, TripTo(key, c)).wire != []
    ensures var bytes := N.EndsOf(n, TripTo(key, c)).wire[0];
            Deques(R.Chunk(s, key, bytes, writes, env), N.Step(disk, max, n, N.Deliver(TripTo(key, c), writes, env)), c)
  {
    var bytes := N.EndsOf(n, TripTo(key, c)).wire[0];
    var r := R.Write(R.Queue(s, key), bytes, writes, env);
    var after := N.Step(disk, max, n, N.Deliver(TripTo(key, c), writes, env));
    Stored(s, n, c, after, key, r);
    if r.left == [] && r.queue == R.Queue(s, key) {
      Assoc(R.LeftOf(s, key), [], []);
    }
  }

  /** Storing a deque changes that key's end alone. */
  lemma Stored(s: R.Inbox, n: N.Net, c: string, after: N.Net, key: R.Key, r: R.Started)
    requires Deques(s, n, c)
    requires forall t | t != TripTo(key, c) :: N.EndsOf(after, t) == N.EndsOf(n, t)
    requires N.EndsOf(after, TripTo(key, c)).queue == r.queue
    requires N.EndsOf(after, TripTo(key, c)).left == N.EndsOf(n, TripTo(key, c)).left + r.left
    ensures Deques(R.Store(s, key, r.queue, r.left), after, c)
  {
    Assoc(R.LeftOf(s, key), [], []);
    var stored := R.Store(s, key, r.queue, r.left);
    forall k
      ensures N.EndsOf(after, TripTo(k, c)).queue == R.Queue(stored, k)
      ensures N.EndsOf(after, TripTo(k, c)).left == R.LeftOf(stored, k)
    {
      assert k != key ==> TripTo(k, c) != TripTo(key, c);
    }
  }
}
