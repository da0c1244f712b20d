/** What becomes of every file a client offers, up to the worker that sends it (src/WebRTCClient.cpp). */
module Sender {
  import opened Wrappers
  import opened Files
  import opened Messages
  import R = Receiver
  import Paths
  import Crc

  type Uuid = string
  datatype PendingOffer = PendingOffer(key: R.Key, path: string)

  /** Tells the channels' queues apart; a channel that is made anew has a new one. */
  type Q = nat

  /** A queue of accepted paths: for whom, what is in it, and, as history, what its worker was given. */
  datatype Line = Line(key: R.Key, items: seq<string>, given: seq<string>)

  /** The first item goes to the worker. */
  function Give(line: Line): Line
    requires line.items != []
  {
    line.(items := line.items[1..], given := line.given + [line.items[0]])
  }

  /**
   * sending: an offer recorded but not yet sent. offers, accepted, placed (the queue an accepted offer's path went to),
   * rejected, withdrawn (could not be sent) and dropped (no channel) are history.
   */
  datatype State = State(
    pending: map<Uuid, PendingOffer>, channels: map<R.Key, Q>, lines: map<Q, Line>, sending: Option<Uuid>,
    offers: map<Uuid, PendingOffer>, accepted: seq<Uuid>, placed: map<Uuid, Q>,
    rejected: set<Uuid>, withdrawn: set<Uuid>, dropped: set<Uuid>)

  const START := State(map[], map[], map[], None, map[], [], map[], {}, {}, {})

  /** The client's thread records an offer and then sends it or fails to; responses may come in between. */
  datatype Event =
    | Recorded(uuid: Uuid, offer: PendingOffer)
    | Sent
    | NotSent
    | Responded(response: Option<Uuid>, accepts: bool)
    | ChannelMade(key: R.Key, queue: Q)
    | ChannelUndone(key: R.Key, queue: Q)
    | ChannelsCleared
    | Dequeued(queue: Q)

  predicate Enabled(s: State, e: Event) {
    match e
    case Recorded(uuid, offer) => s.sending.None? && uuid !in s.offers && offer.key in s.channels
    case Sent => s.sending.Some?
    case NotSent => s.sending.Some?
    case ChannelMade(_, queue) => queue !in s.lines
    case Dequeued(queue) => queue in s.lines && s.lines[queue].items != []
    case _ => true
  }

  function Respond(s: State, uuid: Option<Uuid>, accepts: bool): State {
    if uuid.None? || uuid.value !in s.pending then s else
    var u, offer := uuid.value, s.pending[uuid.value];
    var taken := s.(pending := s.pending - {u});
    if !accepts then taken.(rejected := s.rejected + {u})
    else if offer.key !in s.channels || s.channels[offer.key] !in s.lines then taken.(dropped := s.dropped + {u})
    else
      var q := s.channels[offer.key];
      taken.(accepted := s.accepted + [u], placed := s.placed[u := q],
             lines := s.lines[q := s.lines[q].(items := s.lines[q].items + [offer.path])])
  }

  function Withdraw(s: State, u: Uuid): State {
    if u in s.pending then s.(pending := s.pending - {u}, withdrawn := s.withdrawn + {u}) else s
  }

  function Step(s: State, e: Event): State {
    if !Enabled(s, e) then s else
    match e
    case Recorded(uuid, offer) =>
      s.(pending := s.pending[uuid := offer], offers := s.offers[uuid := offer], sending := Some(uuid))
    case Sent => s.(sending := None)
    case NotSent => Withdraw(s, s.sending.value).(sending := None)
    case Responded(uuid, accepts) => Respond(s, uuid, accepts)
    case ChannelMade(key, queue) =>
      s.(channels := s.channels[key := queue], lines := s.lines[queue := Line(key, [], [])])
    case ChannelUndone(key, queue) =>
      if key in s.channels && s.channels[key] == queue then s.(channels := s.channels - {key}) else s
    case ChannelsCleared => s.(channels := map[])
    case Dequeued(queue) => s.(lines := s.lines[queue := Give(s.lines[queue])])
  }

  function Run(events: seq<Event>): State {
    if events == [] then START else Step(Run(events[..|events| - 1]), events[|events| - 1])
  }

  // ---- Conservation ----

  function Places(pending: set<Uuid>, accepted: seq<Uuid>, rejected: set<Uuid>, withdrawn: set<Uuid>,
                  dropped: set<Uuid>)
    : multiset<Uuid>
  {
    multiset(pending) + multiset(accepted) + multiset(rejected) + multiset(withdrawn) + multiset(dropped)
  }

  /** Where every uuid ever offered now is, each place counted. */
  function Fates(s: State): multiset<Uuid> {
    Places(s.pending.Keys, s.accepted, s.rejected, s.withdrawn, s.dropped)
  }

  /** The paths of the offers accepted on a queue, in the order of acceptance. */
  function PathsOn(offers: map<Uuid, PendingOffer>, placed: map<Uuid, Q>, accepted: seq<Uuid>, q: Q): seq<string> {
    if accepted == [] then [] else
    var n := |accepted| - 1;
    var u := accepted[n];
    PathsOn(offers, placed, accepted[..n], q) +
    if u in offers && u in placed && placed[u] == q then [offers[u].path] else []
  }

  ghost predicate Conserved(s: State) {
    && Fates(s) == multiset(s.offers.Keys)
    && (forall u | u in s.pending :: u in s.offers && s.pending[u] == s.offers[u])
  }

  /** What a worker was given and what waits for it are exactly the paths accepted on its queue. */
  ghost predicate InOrder(s: State) {
    forall q | q in s.lines :: s.lines[q].given + s.lines[q].items == PathsOn(s.offers, s.placed, s.accepted, q)
  }

  /** An accepted path went to a queue of its own peer and room. */
  ghost predicate Addressed(s: State) {
    && (forall k | k in s.channels :: s.channels[k] in s.lines && s.lines[s.channels[k]].key == k)
    && (forall u | u in s.accepted :: u in s.offers && u in s.placed)
    && (forall u | u in s.placed ::
          u in s.accepted && s.placed[u] in s.lines && s.lines[s.placed[u]].key == s.offers[u].key)
  }

  ghost predicate Queued(s: State) {
    InOrder(s) && Addressed(s)
  }

  lemma Settles(p: set<Uuid>, a: seq<Uuid>, r: set<Uuid>, w: set<Uuid>, d: set<Uuid>, u: Uuid)
    requires u in p && Places(p, a, r, w, d)[u] == 1
    ensures u !in a && u !in r && u !in w && u !in d
    ensures Places(p - {u}, a + [u], r, w, d) == Places(p, a, r, w, d)
    ensures Places(p - {u}, a, r + {u}, w, d) == Places(p, a, r, w, d)
    ensures Places(p - {u}, a, r, w + {u}, d) == Places(p, a, r, w, d)
    ensures Places(p - {u}, a, r, w, d + {u}) == Places(p, a, r, w, d)
  {
    assert multiset(p)[u] == 1 && multiset(p) == multiset(p - {u}) + multiset{u};
    assert multiset(a)[u] == 0 && multiset(r)[u] == 0 && multiset(w)[u] == 0 && multiset(d)[u] == 0;
    assert multiset(a + [u]) == multiset(a) + multiset{u};
    assert multiset(r + {u}) == multiset(r) + multiset{u};
    assert multiset(w + {u}) == multiset(w) + multiset{u};
    assert multiset(d + {u}) == multiset(d) + multiset{u};
  }

  /** A pending offer is nowhere else, and settling it leaves every count as it is. */
  lemma SettlesOne(s: State, u: Uuid)
    requires Conserved(s) && u in s.pending
    ensures u !in s.accepted && u !in s.rejected && u !in s.withdrawn && u !in s.dropped
    ensures var p := s.pending.Keys - {u};
            && Places(p, s.accepted + [u], s.rejected, s.withdrawn, s.dropped) == Fates(s)
            && Places(p, s.accepted, s.rejected + {u}, s.withdrawn, s.dropped) == Fates(s)
            && Places(p, s.accepted, s.rejected, s.withdrawn + {u}, s.dropped) == Fates(s)
            && Places(p, s.accepted, s.rejected, s.withdrawn, s.dropped + {u}) == Fates(s)
  {
    assert u in s.offers && multiset(s.offers.Keys)[u] == 1;
    Settles(s.pending.Keys, s.accepted, s.rejected, s.withdrawn, s.dropped, u);
  }

  lemma {:induction false} PathsOnOthers(offers: map<Uuid, PendingOffer>, placed: map<Uuid, Q>, accepted: seq<Uuid>,
                                         q: Q, u: Uuid, offer: PendingOffer, p: Q)
    requires u !in accepted
    ensures PathsOn(offers[u := offer], placed, accepted, q) == PathsOn(offers, placed, accepted, q)
    ensures PathsOn(offers, placed[u := p], accepted, q) == PathsOn(offers, placed, accepted, q)
  {
    if accepted != [] {
      var n := |accepted| - 1;
      assert accepted[n] != u;
      PathsOnOthers(offers, placed, accepted[..n], q, u, offer, p);
    }
  }

  lemma NoneOn(s: State, q: Q, accepted: seq<Uuid>)
    requires forall u | u in accepted :: u in s.placed && s.placed[u] != q
    ensures PathsOn(s.offers, s.placed, accepted, q) == []
  {}

  lemma RespondConserves(s: State, uuid: Option<Uuid>, accepts: bool)
    requires Conserved(s)
    ensures Conserved(Respond(s, uuid, accepts))
  {
    if uuid.Some? && uuid.value in s.pending {
      SettlesOne(s, uuid.value);
      assert Respond(s, uuid, accepts).pending.Keys == s.pending.Keys - {uuid.value};
    }
  }

  lemma WithdrawConserves(s: State, u: Uuid)
    requires Conserved(s)
    ensures Conserved(Withdraw(s, u))
  {
    if u in s.pending {
      SettlesOne(s, u);
      assert Withdraw(s, u).pending.Keys == s.pending.Keys - {u};
    }
  }

  lemma Records(p: set<Uuid>, a: seq<Uuid>, r: set<Uuid>, w: set<Uuid>, d: set<Uuid>, u: Uuid)
    requires u !in p
    ensures Places(p + {u}, a, r, w, d) == Places(p, a, r, w, d) + multiset{u}
  {
    assert multiset(p + {u}) == multiset(p) + multiset{u};
  }

  lemma OneMore(a: set<Uuid>, u: Uuid)
    requires u !in a
    ensures multiset(a + {u}) == multiset(a) + multiset{u}
  {}

  lemma RecordConserves(s: State, u: Uuid, offer: PendingOffer)
    requires Conserved(s) && u !in s.offers
    ensures Conserved(s.(pending := s.pending[u := offer], offers := s.offers[u := offer]))
  {
    var n := s.(pending := s.pending[u := offer], offers := s.offers[u := offer]);
    assert n.pending.Keys == s.pending.Keys + {u} && n.offers.Keys == s.offers.Keys + {u};
    assert Fates(n) == Fates(s) + multiset{u} by {
      Records(s.pending.Keys, s.accepted, s.rejected, s.withdrawn, s.dropped, u);
    }
    OneMore(s.offers.Keys, u);
  }

  function Place(s: State, u: Uuid, q: Q): State
    requires u in s.offers && q in s.lines
  {
    s.(accepted := s.accepted + [u], placed := s.placed[u := q],
       lines := s.lines[q := s.lines[q].(items := s.lines[q].items + [s.offers[u].path])])
  }

  lemma PlaceInOrder(s: State, u: Uuid, q: Q)
    requires InOrder(s) && u !in s.accepted && u in s.offers && q in s.lines
    ensures InOrder(Place(s, u, q))
  {
    var n := Place(s, u, q);
    assert n.accepted[..|s.accepted|] == s.accepted;
    Assoc(s.lines[q].given, s.lines[q].items, [s.offers[u].path]);
    forall p | p in n.lines ensures n.lines[p].given + n.lines[p].items == PathsOn(n.offers, n.placed, n.accepted, p) {
      PathsOnOthers(s.offers, s.placed, s.accepted, p, u, s.offers[u], q);
      Assoc(PathsOn(s.offers, s.placed, s.accepted, p), [], []);
    }
  }

  lemma PlaceAddressed(s: State, u: Uuid, q: Q)
    requires Addressed(s) && u !in s.accepted && u in s.offers && q in s.lines && s.lines[q].key == s.offers[u].key
    ensures Addressed(Place(s, u, q))
  {
    assert forall v :: v in s.accepted + [u] <==> v in s.accepted || v == u;
  }

  lemma RespondQueues(s: State, uuid: Option<Uuid>, accepts: bool)
    requires Conserved(s) && Queued(s)
    ensures Queued(Respond(s, uuid, accepts))
  {
    var n := Respond(s, uuid, accepts);
    if n.accepted != s.accepted {
      SettlesOne(s, uuid.value);
      var u, q := uuid.value, s.channels[s.pending[uuid.value].key];
      PlaceInOrder(s, u, q);
      PlaceAddressed(s, u, q);
      assert n == Place(s, u, q).(pending := n.pending);
    }
  }

  lemma OfferQueues(s: State, uuid: Uuid, offer: PendingOffer)
    requires Queued(s) && uuid !in s.offers
    ensures Queued(s.(offers := s.offers[uuid := offer]))
  {
    assert uuid !in s.accepted;
    forall q | q in s.lines
      ensures PathsOn(s.offers[uuid := offer], s.placed, s.accepted, q) == s.lines[q].given + s.lines[q].items
    {
      PathsOnOthers(s.offers, s.placed, s.accepted, q, uuid, offer, q);
    }
  }

  lemma ChannelQueues(s: State, key: R.Key, queue: Q)
    requires Queued(s) && queue !in s.lines
    ensures Queued(s.(channels := s.channels[key := queue], lines := s.lines[queue := Line(key, [], [])]))
  {
    NoneOn(s, queue, s.accepted);
  }

  lemma GiveQueues(s: State, queue: Q)
    requires Queued(s) && queue in s.lines && s.lines[queue].items != []
    ensures Queued(s.(lines := s.lines[queue := Give(s.lines[queue])]))
  {
    var line := s.lines[queue];
    assert line.items == [line.items[0]] + line.items[1..];
    Assoc(line.given, [line.items[0]], line.items[1..]);
  }

  lemma StepConserves(s: State, e: Event)
    requires Conserved(s)
    ensures Conserved(Step(s, e))
  {
    if Enabled(s, e) {
      match e
      case Recorded(uuid, offer) => RecordConserves(s, uuid, offer);
      case NotSent => WithdrawConserves(s, s.sending.value);
      case Responded(uuid, accepts) => RespondConserves(s, uuid, accepts);
      case _ =>
    }
  }

  lemma StepQueues(s: State, e: Event)
    requires Conserved(s) && Queued(s)
    ensures Queued(Step(s, e))
  {
    if Enabled(s, e) {
      match e
      case Recorded(uuid, offer) => OfferQueues(s, uuid, offer);
      case Responded(uuid, accepts) => RespondQueues(s, uuid, accepts);
      case ChannelMade(key, queue) => ChannelQueues(s, key, queue);
      case Dequeued(queue) => GiveQueues(s, queue);
      case _ =>
    }
  }

  /**
   * In every run every uuid ever offered is in exactly one of pending, accepted, rejected, withdrawn and dropped, once;
   * and every queue has been given exactly the paths of the offers accepted on it, in order of acceptance.
   */
  lemma {:induction false} OffersConserved(events: seq<Event>)
    ensures Conserved(Run(events)) && Queued(Run(events))
  {
    if events != [] {
      OffersConserved(events[..|events| - 1]);
      StepConserves(Run(events[..|events| - 1]), events[|events| - 1]);
      StepQueues(Run(events[..|events| - 1]), events[|events| - 1]);
    }
  }

  /** What is settled stays settled. */
  ghost predicate Extends(s: State, after: State) {
    && s.offers.Keys <= after.offers.Keys && s.accepted <= after.accepted && s.rejected <= after.rejected
    && s.withdrawn <= after.withdrawn && s.dropped <= after.dropped
    && forall u | u in s.offers && u !in s.pending :: u !in after.pending
  }

  lemma StepExtends(s: State, e: Event)
    ensures Extends(s, Step(s, e))
  {}

  /** Nothing that left the pending table ever comes back or changes its fate. */
  lemma {:induction false} FatesAreFinal(events: seq<Event>, k: nat)
    requires k <= |events|
    ensures Extends(Run(events[..k]), Run(events))
  {
    if k < |events| {
      var n := |events| - 1;
      assert events[..n][..k] == events[..k];
      FatesAreFinal(events[..n], k);
      StepExtends(Run(events[..n]), events[n]);
    } else {
      assert events[..k] == events;
    }
  }

  /**
   * What a worker takes from its queue in any run are the first paths accepted there, each accepted for its own key.
   */
  lemma WorkerTakesAccepted(events: seq<Event>, q: Q)
    requires q in Run(events).lines
    ensures var s := Run(events);
            && s.lines[q].given <= PathsOn(s.offers, s.placed, s.accepted, q)
            && forall u | u in s.accepted ::
                 u in s.placed && u in s.offers && (s.placed[u] == q ==> s.offers[u].key == s.lines[q].key)
  {
    OffersConserved(events);
  }

  lemma RespondHasCause(s: State, response: Option<Uuid>, accepts: bool, u: Uuid)
    ensures var n := Respond(s, response, accepts);
            && n.offers == s.offers && n.withdrawn == s.withdrawn
            && (u in n.rejected ==> u in s.rejected || (response == Some(u) && !accepts))
            && (u in n.accepted ==> u in s.accepted || (response == Some(u) && accepts))
            && (u in n.dropped ==> u in s.dropped || (response == Some(u) && accepts))
  {}

  lemma StepHasCause(s: State, e: Event, u: Uuid)
    ensures var n := Step(s, e);
            && (u in n.offers ==> (u in s.offers && n.offers[u] == s.offers[u]) || e == Recorded(u, n.offers[u]))
            && (u in n.rejected ==> u in s.rejected || e == Responded(Some(u), false))
            && (u in n.accepted ==> u in s.accepted || e == Responded(Some(u), true))
            && (u in n.dropped ==> u in s.dropped || e == Responded(Some(u), true))
            && (u in n.withdrawn ==> u in s.withdrawn || e == NotSent)
  {
    if Enabled(s, e) && e.Responded? {
      RespondHasCause(s, e.response, e.accepts, u);
    }
  }

  /** Every offer comes from its recording, and every fate from the event that its name says. */
  lemma {:induction false} FatesHaveCauses(events: seq<Event>, u: Uuid)
    ensures var s := Run(events);
            && (u in s.offers ==> Recorded(u, s.offers[u]) in events)
            && (u in s.rejected ==> Responded(Some(u), false) in events)
            && (u in s.accepted || u in s.dropped ==> Responded(Some(u), true) in events)
            && (u in s.withdrawn ==> NotSent in events)
  {
    if events != [] {
      var n := |events| - 1;
      FatesHaveCauses(events[..n], u);
      StepHasCause(Run(events[..n]), events[n], u);
      assert events == events[..n] + [events[n]];
    }
  }

  /** An answer to a pending offer settles it as it says, and an acceptance by whether there is a channel. */
  lemma AnswerSettles(s: State, u: Uuid, accepts: bool)
    requires Conserved(s) && Addressed(s) && u in s.pending
    ensures var n, channel := Respond(s, Some(u), accepts), s.pending[u].key in s.channels;
            && u !in n.pending && (u in n.rejected <==> !accepts)
            && (u in n.accepted <==> accepts && channel) && (u in n.dropped <==> accepts && !channel)
            && (accepts && channel ==> n.placed[u] == s.channels[s.pending[u].key])
            && (!(accepts && channel) ==> n.lines == s.lines)
  {
    SettlesOne(s, u);
  }

  /** An offer is pending while it is being sent, and no longer once that failed. */
  lemma UnsentWithdrawn(s: State, u: Uuid, offer: PendingOffer)
    requires Conserved(s) && Enabled(s, Recorded(u, offer))
    ensures var recorded := Step(s, Recorded(u, offer));
            && u in recorded.pending && recorded.pending[u] == offer && u in Step(recorded, Sent).pending
            && u !in Step(recorded, NotSent).pending && u in Step(recorded, NotSent).withdrawn
  {}

  /** After a lost connection every offer is still pending, and an acceptance finds no channel and queues nothing. */
  lemma LostConnectionDrops(s: State, u: Uuid)
    requires Conserved(s) && u in s.pending
    ensures var lost := Step(s, ChannelsCleared);
            && lost.pending == s.pending
            && Respond(lost, Some(u), true).lines == s.lines && u in Respond(lost, Some(u), true).dropped
  {}

  /** A response to anything but a pending offer, a second response included, changes nothing. */
  lemma SecondResponseIgnored(s: State, uuid: Option<Uuid>, first: bool, second: bool)
    ensures var answered := Respond(s, uuid, first);
            Respond(answered, uuid, second) == answered
  {}

  // ---- The offer itself ----

  /** The file's name as the receiver shall read it, its size and its checksum. */
  function Described(cwd: Paths.Path, directory: string, path: string, content: Bytes, mimeType: string): FileInfo {
    var name := Paths.OfferedName(cwd, directory, path);
    FileInfo(if name == "" then path else name, |content|, mimeType, Some(Crc.Crc32(content)))
  }

  function OfferMade(cwd: Paths.Path, directory: string, offer: PendingOffer, uuid: Uuid, content: Bytes,
                     mimeType: string): Doc {
    Doc(FileOffer, Some(offer.key.peer), Some(offer.key.room), Some(uuid),
        Some(Described(cwd, directory, offer.path, content, mimeType)))
  }

  /** What a receiver makes of an offer that has all its members. */
  lemma OfferJudged(theirs: string, doc: Doc, prepared: bool, existing: Option<Bytes>)
    requires doc.peer.Some? && doc.room.Some? && doc.file.Some?
    ensures var destination := Paths.Destination(theirs, doc.file.value.name);
            var judged := R.Judge(theirs, doc, prepared, existing);
            var present := existing.Some? && doc.file.value.crc == Some(Crc.Crc32(existing.value));
            && (judged == R.Ignored <==> destination == None || !prepared)
            && (judged == R.Refused <==> destination.Some? && prepared && present)
            && (judged.Taken? ==>
                  && judged.key == R.Key(doc.peer.value, doc.room.value) && Some(judged.file.destination) == destination
                  && judged.file.expectedSize == doc.file.value.size && judged.file.stream == R.Unopened)
  {}

  /**
   * From the file on one side to the deque on the other. An offer that is relayed is passed over exactly if its name
   * leads nowhere or its directory cannot be made, and refused exactly if the receiver already has a file with the same
   * checksum there; otherwise the receiver waits, under the sender's name, for as many bytes as the file has. Either
   * answer carries the uuid under which the offer is pending.
   */
  lemma OfferUnderstood(cwd: Paths.Path, directory: string, offer: PendingOffer, uuid: Uuid, content: Bytes,
                        mimeType: string, me: string, theirs: string, prepared: bool, existing: Option<Bytes>)
    requires cwd.root && Paths.WellFormed(cwd)
    ensures var seen := OfferMade(cwd, directory, offer, uuid, content, mimeType).(peer := Some(me));
            var destination := Paths.Destination(theirs, Paths.OfferedName(cwd, directory, offer.path));
            var judged := R.Judge(theirs, seen, prepared, existing);
            var present := existing.Some? && Crc.Crc32(existing.value) == Crc.Crc32(content);
            && (judged == R.Ignored <==> destination == None || !prepared)
            && (judged == R.Refused <==> destination.Some? && prepared && present)
            && (judged.Taken? ==>
                  && judged.key == R.Key(me, offer.key.room) && Some(judged.file.destination) == destination
                  && judged.file.expectedSize == |content| && judged.file.stream == R.Unopened)
            && AcceptReply(seen).value.uuid == Some(uuid) && RejectReply(seen).value.uuid == Some(uuid)
  {
    Paths.OfferedNameNotEmpty(cwd, directory, offer.path);
    var made := OfferMade(cwd, directory, offer, uuid, content, mimeType);
    OfferJudged(theirs, made.(peer := Some(me)), prepared, existing);
  }

  /** So a receiver that already has the identical file refuses it and keeps its copy. */
  lemma PresentFileRefused(cwd: Paths.Path, directory: string, offer: PendingOffer, uuid: Uuid, content: Bytes,
                           mimeType: string, me: string, theirs: string)
    requires cwd.root && Paths.WellFormed(cwd)
    requires Paths.Destination(theirs, Paths.OfferedName(cwd, directory, offer.path)).Some?
    ensures var seen := OfferMade(cwd, directory, offer, uuid, content, mimeType).(peer := Some(me));
            R.Judge(theirs, seen, true, Some(content)) == R.Refused
  {
    OfferUnderstood(cwd, directory, offer, uuid, content, mimeType, me, theirs, true, Some(content));
  }

  /** And one whose file of the same length differs only inside four consecutive bytes takes it. */
  lemma ChangedFileTaken(cwd: Paths.Path, directory: string, offer: PendingOffer, uuid: Uuid, content: Bytes,
                         mimeType: string, me: string, theirs: string, existing: Bytes, i: nat, j: nat)
    requires cwd.root && Paths.WellFormed(cwd)
    requires Paths.Destination(theirs, Paths.OfferedName(cwd, directory, offer.path)).Some?
    requires |content| == |existing| && content != existing && i <= j <= |content| && j - i <= 4
    requires content[..i] == existing[..i] && content[j..] == existing[j..]
    ensures var seen := OfferMade(cwd, directory, offer, uuid, content, mimeType).(peer := Some(me));
            R.Judge(theirs, seen, true, Some(existing)).Taken?
  {
    Crc.FourByteChangeDetected(content, existing, i, j);
    OfferUnderstood(cwd, directory, offer, uuid, content, mimeType, me, theirs, true, Some(existing));
  }

  /** An offer that is sent is pending; one that cannot be is withdrawn. */
  function AfterOffer(s: State, uuid: Uuid, offer: PendingOffer, delivers: bool): State {
    var offered := s.(offers := s.offers[uuid := offer]);
    if delivers then offered.(pending := s.pending[uuid := offer])
    else offered.(pending := s.pending - {uuid}, withdrawn := s.withdrawn + {uuid})
  }

  /** Which is what recording it and then sending it, or failing to, comes to. */
  lemma OfferIsTwoSteps(s: State, uuid: Uuid, offer: PendingOffer, delivers: bool)
    requires s.sending.None? && uuid !in s.offers && offer.key in s.channels
    ensures AfterOffer(s, uuid, offer, delivers) ==
            Step(Step(s, Recorded(uuid, offer)), if delivers then Sent else NotSent)
  {
    assert s.pending[uuid := offer] - {uuid} == s.pending - {uuid};
  }

  /** A channel has a queue of its own; its table entry is taken back if its offer cannot be sent. */
  function AfterChannel(s: State, key: R.Key, queue: Q, delivers: bool): State {
    s.(channels := if delivers then s.channels[key := queue] else s.channels - {key},
       lines := s.lines[queue := Line(key, [], [])])
  }

  lemma ChannelIsTwoSteps(s: State, key: R.Key, queue: Q, delivers: bool)
    requires queue !in s.lines
    ensures var made := Step(s, ChannelMade(key, queue));
            AfterChannel(s, key, queue, delivers) == if delivers then made else Step(made, ChannelUndone(key, queue))
  {
    assert s.channels[key := queue] - {key} == s.channels - {key};
  }

  /**
   * A channel is in the table afterwards exactly if its own offer went out, and then with a queue of its own that is
   * empty; no other channel and no other queue is touched.
   */
  lemma ChannelKeptExactly(s: State, key: R.Key, queue: Q, delivers: bool, other: R.Key)
    requires Addressed(s) && queue !in s.lines
    ensures var after := AfterChannel(s, key, queue, delivers);
            && Addressed(after)
            && (key in after.channels <==> delivers)
            && (delivers ==> after.channels[key] == queue && after.lines[queue].items == [])
            && (forall k | k in s.channels :: s.channels[k] != queue)
            && (other != key ==> (other in after.channels <==> other in s.channels))
            && (other != key && other in s.channels ==>
                  && after.channels[other] == s.channels[other]
                  && after.lines[after.channels[other]] == s.lines[s.channels[other]])
            && (after.pending, after.accepted, after.placed) == (s.pending, s.accepted, s.placed)
  {}

  // ---- The client ----

  /** What the client does is a sequence of the steps above, so what is proved of runs holds of its log. */
  class SendingClient {
    const cwd: Paths.Path
    const directory: string
    var pendingOffers: map<Uuid, PendingOffer>
    var channels: map<R.Key, Q>
    var queues: map<Q, seq<string>>
    var nextQueue: Q
    var clientState: ClientState
    var outbox: seq<Doc>
    ghost var log: State

    ghost predicate Valid()
      reads this
    {
      && log.pending == pendingOffers && log.channels == channels && log.lines.Keys == queues.Keys
      && (forall k | k in channels :: channels[k] in queues)
      && (forall q | q in queues :: q < nextQueue)
      && forall q | q in queues :: queues[q] == log.lines[q].items
    }

    constructor (cwd: Paths.Path, directory: string)
      ensures Valid() && log == START && outbox == [] && clientState == INIT
      ensures this.cwd == cwd && this.directory == directory
    {
      this.cwd, this.directory := cwd, directory;
      pendingOffers, channels, queues, nextQueue := map[], map[], map[], 0;
      clientState, outbox, log := INIT, [], START;
    }

    method TakePendingOffer(uuid: Option<Uuid>) returns (offer: Option<PendingOffer>)
      modifies `pendingOffers
      ensures offer == if uuid.Some? && uuid.value in old(pendingOffers)
                       then Some(old(pendingOffers)[uuid.value]) else None
      ensures pendingOffers == if offer.Some? then old(pendingOffers) - {uuid.value} else old(pendingOffers)
    {
      if uuid.None? || uuid.value !in pendingOffers {
        return None;
      }
      offer := Some(pendingOffers[uuid.value]);
      pendingOffers := pendingOffers - {uuid.value};
    }

    method OnFileAccept(uuid: Option<Uuid>)
      requires Valid()
      modifies `pendingOffers, `queues, `clientState, `log
      ensures Valid() && log == Respond(old(log), uuid, true)
      ensures var queued := uuid.Some? && uuid.value in old(pendingOffers) &&
                            old(pendingOffers)[uuid.value].key in channels;
              clientState == if queued && old(clientState) == WAIT_FOR_FILE_ACCEPT then RUN else old(clientState)
    {
      var offer := TakePendingOffer(uuid);
      log := Respond(log, uuid, true);
      if offer.None? || offer.value.key !in channels {
        return;
      }
      var fileQ := channels[offer.value.key];
      queues := queues[fileQ := queues[fileQ] + [offer.value.path]];
      if clientState == WAIT_FOR_FILE_ACCEPT {
        clientState := RUN;
      }
    }

    method OnFileReject(uuid: Option<Uuid>)
      requires Valid()
      modifies `pendingOffers, `clientState, `log
      ensures Valid() && log == Respond(old(log), uuid, false)
      ensures var known := uuid.Some? && uuid.value in old(pendingOffers);
              clientState == if known && old(clientState) == WAIT_FOR_FILE_ACCEPT then RUN else old(clientState)
    {
      var offer := TakePendingOffer(uuid);
      log := Respond(log, uuid, false);
      if offer.None? {
        return;
      }
      if clientState == WAIT_FOR_FILE_ACCEPT {
        clientState := RUN;
      }
    }

    method Inspect(path: string, content: Bytes, mimeType: string) returns (info: FileInfo)
      ensures info == Described(cwd, directory, path, content, mimeType)
    {
      var stream := new InputStream(content);
      var crc := Crc.GetCrc(stream);
      var name := Paths.OfferedName(cwd, directory, path);
      info := FileInfo(if name == "" then path else name, |content|, mimeType, Some(crc));
    }

    /** Enters an offer, and strikes it out again if the socket does not take it. */
    method Enter(uuid: Uuid, offer: PendingOffer, delivers: bool)
      requires Valid()
      modifies `pendingOffers, `clientState, `log
      ensures Valid() && log == AfterOffer(old(log), uuid, offer, delivers)
      ensures clientState == if delivers then WAIT_FOR_FILE_ACCEPT else RUN
    {
      clientState := WAIT_FOR_FILE_ACCEPT;
      pendingOffers := pendingOffers[uuid := offer];
      if !delivers {
        pendingOffers := pendingOffers - {uuid};
        clientState := RUN;
      }
      log := AfterOffer(log, uuid, offer, delivers);
    }

    /**
     * inspected: the file's content and type, or nothing if it cannot be read; delivers: whether the socket takes it.
     */
    method SendFileOffer(room: string, peer: string, path: string, inspected: Option<(Bytes, string)>, uuid: Uuid,
                         delivers: bool)
      returns (ok: bool)
      requires Valid() && log.sending.None? && uuid !in log.offers
      modifies `pendingOffers, `clientState, `log, `outbox
      ensures Valid() && log.sending.None?
      ensures ok == (inspected.Some? && R.Key(peer, room) in channels && delivers)
      ensures if inspected.None? || R.Key(peer, room) !in channels
              then log == old(log) && clientState == old(clientState)
              else log == AfterOffer(old(log), uuid, PendingOffer(R.Key(peer, room), path), delivers)
                   && clientState == if delivers then WAIT_FOR_FILE_ACCEPT else RUN
      ensures outbox == if ok then old(outbox) + [OfferMade(cwd, directory, PendingOffer(R.Key(peer, room), path), uuid,
                                                            inspected.value.0, inspected.value.1)]
                        else old(outbox)
    {
      if inspected.None? {
        return false;
      }
      var key := R.Key(peer, room);
      var info := Inspect(path, inspected.value.0, inspected.value.1);
      if key !in channels {
        return false;
      }
      Enter(uuid, PendingOffer(key, path), delivers);
      if !delivers {
        return false;
      }
      outbox := outbox + [Doc(FileOffer, Some(peer), Some(room), Some(uuid), Some(info))];
      ok := true;
    }

    /** Enters a channel, and strikes it out again, if it is still this one, when its offer cannot be sent. */
    method EnterChannel(key: R.Key, delivers: bool)
      requires Valid()
      modifies `channels, `queues, `nextQueue, `log
      ensures Valid() && log == AfterChannel(old(log), key, old(nextQueue), delivers)
    {
      var fileQ := nextQueue;
      nextQueue := nextQueue + 1;
      queues := queues[fileQ := []];
      channels := channels[key := fileQ];
      if !delivers && key in channels && channels[key] == fileQ {
        channels := channels - {key};
      }
      log := AfterChannel(log, key, fileQ, delivers);
    }

    /**
     * described: whether a local description was obtained; delivers: whether the socket takes the offer of the
     * channel.
     */
    method MakeDataChannel(peer: string, room: string, described: bool, delivers: bool) returns (ok: bool)
      requires Valid()
      modifies `channels, `queues, `nextQueue, `log, `outbox
      ensures Valid() && ok == (described && delivers)
      ensures log == if !described then old(log)
                     else AfterChannel(old(log), R.Key(peer, room), old(nextQueue), delivers)
      ensures outbox == if ok then old(outbox) + [Doc(Messages.Kind.Offer, Some(peer), Some(room), None, None)]
                        else old(outbox)
    {
      if !described {
        return false;
      }
      EnterChannel(R.Key(peer, room), delivers);
      if !delivers {
        return false;
      }
      outbox := outbox + [Doc(Messages.Kind.Offer, Some(peer), Some(room), None, None)];
      ok := true;
    }

    method OnMessageClose()
      requires Valid()
      modifies `channels, `clientState, `log
      ensures Valid()
      ensures clientState == if old(clientState) == EXIT then EXIT else INIT
      ensures log == if old(clientState) == EXIT then old(log) else Step(old(log), ChannelsCleared)
    {
      if clientState != EXIT {
        clientState := INIT;
        channels := map[];
        log := log.(channels := map[]);
      }
    }

    /** A channel's worker takes the next path. */
    method NextPath(fileQ: Q) returns (path: string)
      requires Valid() && fileQ in queues && queues[fileQ] != []
      modifies `queues, `log
      ensures Valid() && log == Step(old(log), Dequeued(fileQ))
      ensures log.lines[fileQ].given == old(log).lines[fileQ].given + [path]
    {
      path := queues[fileQ][0];
      queues := queues[fileQ := queues[fileQ][1..]];
      log := Step(log, Dequeued(fileQ));
    }
  }
}
