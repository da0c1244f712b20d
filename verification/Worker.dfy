/**
 * What the client's own thread sees and does, and what other threads do meanwhile (src/WebRTCClient.cpp): when a join
 * is noticed, and what stands behind an offer.
 */
module Worker {
  import opened Messages
  import opened Receiver
  import opened Specs
  import Server
  import Rosters

  type Name = Server.Name
  type Room = Server.Room

  /**
   * What was seen and done, in order. ConnectionLost: the tables were cleared for want of a connection. PeerSeen and
   * ChannelSeen: the client's thread found the peer in its room, or the channel in its table.
   */
  datatype Act =
    | RosterSeen(room: Room, who: Name, peers: set<Name>)
    | JoinSent(joining: Room)
    | SdpSent(key: Key)
    | ConnectionLost
    | PeerSeen(key: Key)
    | ChannelSeen(key: Key)
    | FileOffered(spec: FileSpec)

  /** What the other threads may do to the state that the client's thread looks at. */
  datatype Incident =
    | RosterArrived(room: Room, who: Name, peers: set<Name>, joined: bool)
    | ResponseArrived
    | PongArrived
    | FileFinished
    | TransportClosed
    | Stopped

  predicate Ended(s: ClientState) {
    s == EXIT || s == INIT
  }

  /** The state that an incident leaves, when the client called `name` awaits its join of `awaited`. */
  function After(s: ClientState, e: Incident, name: Name, awaited: Room): ClientState {
    match e
    case RosterArrived(room, who, _, joined) =>
      if s == WAITING_FOR_JOIN && joined && room == awaited && who == name then JOINED else s
    case ResponseArrived => if s == WAIT_FOR_FILE_ACCEPT then RUN else s
    case PongArrived => if s == WAIT_FOR_PONG then RUN else s
    case FileFinished => RUN
    case TransportClosed => if s == EXIT then EXIT else INIT
    case Stopped => EXIT
  }

  function AfterAll(s: ClientState, incidents: seq<Incident>, name: Name, awaited: Room): ClientState {
    if incidents == [] then s
    else After(AfterAll(s, incidents[..|incidents| - 1], name, awaited), incidents[|incidents| - 1], name, awaited)
  }

  /** The mark that an incident leaves in the trace. A client that is exiting keeps its tables. */
  function Mark(s: ClientState, e: Incident): seq<Act> {
    if e.RosterArrived? then [RosterSeen(e.room, e.who, e.peers)]
    else if e.TransportClosed? && s != EXIT then [ConnectionLost] else []
  }

  function Marks(s: ClientState, incidents: seq<Incident>, name: Name, awaited: Room): seq<Act> {
    if incidents == [] then [] else
    var n := |incidents| - 1;
    Marks(s, incidents[..n], name, awaited) + Mark(AfterAll(s, incidents[..n], name, awaited), incidents[n])
  }

  predicate ByOthers(a: Act) {
    a.RosterSeen? || a.ConnectionLost?
  }

  lemma {:induction false} MarksAreByOthers(s: ClientState, incidents: seq<Incident>, name: Name, awaited: Room)
    ensures forall i | 0 <= i < |Marks(s, incidents, name, awaited)| :: ByOthers(Marks(s, incidents, name, awaited)[i])
  {
    if incidents != [] {
      MarksAreByOthers(s, incidents[..|incidents| - 1], name, awaited);
    }
  }

  predicate OwnJoin(e: Incident, name: Name, awaited: Room) {
    e.RosterArrived? && e.joined && e.room == awaited && e.who == name
  }

  predicate Disturbs(e: Incident) {
    e.FileFinished? || e.TransportClosed? || e.Stopped?
  }

  /**
   * A client that waits for its join notices it if and only if the join is among what happened until it holds the lock
   * again and, before or after it, no received file was finished and the connection was neither closed nor stopped.
   */
  lemma {:induction false} JoinNoticedExactly(incidents: seq<Incident>, name: Name, awaited: Room)
    ensures AfterAll(WAITING_FOR_JOIN, incidents, name, awaited) == JOINED <==>
            && (exists i :: 0 <= i < |incidents| && OwnJoin(incidents[i], name, awaited))
            && (forall j | 0 <= j < |incidents| :: !Disturbs(incidents[j]))
    ensures AfterAll(WAITING_FOR_JOIN, incidents, name, awaited) == WAITING_FOR_JOIN <==>
            forall j | 0 <= j < |incidents| :: !OwnJoin(incidents[j], name, awaited) && !Disturbs(incidents[j])
  {
    if incidents != [] {
      var n := |incidents| - 1;
      var before := incidents[..n];
      JoinNoticedExactly(before, name, awaited);
      assert forall j | 0 <= j < n :: before[j] == incidents[j];
      if i :| 0 <= i < n && OwnJoin(before[i], name, awaited) {
        assert OwnJoin(incidents[i], name, awaited);
      }
    }
  }

  /** What ends a client's wait for the answer to an offer, or for a pong. */
  predicate EndsWait(s: ClientState, e: Incident) {
    || Disturbs(e)
    || (if s == WAIT_FOR_PONG then e.PongArrived? else e.ResponseArrived?)
  }

  /** Such a wait goes on if and only if nothing that ends it has happened; the first such thing ends it. */
  lemma {:induction false} WaitEndsExactly(s: ClientState, incidents: seq<Incident>, name: Name, awaited: Room)
    requires s == WAIT_FOR_FILE_ACCEPT || s == WAIT_FOR_PONG
    ensures AfterAll(s, incidents, name, awaited) == s <==>
            forall i | 0 <= i < |incidents| :: !EndsWait(s, incidents[i])
    ensures AfterAll(s, incidents, name, awaited) in {s, RUN, INIT, EXIT}
    ensures (forall i | 0 <= i < |incidents| :: !incidents[i].TransportClosed? && !incidents[i].Stopped?) ==>
              AfterAll(s, incidents, name, awaited) in {s, RUN}
  {
    if incidents != [] {
      var n := |incidents| - 1;
      WaitEndsExactly(s, incidents[..n], name, awaited);
      assert forall i | 0 <= i < n :: incidents[..n][i] == incidents[i];
    }
  }

  // ---- What the trace always shows ----

  /** No connection was lost after act i and before moment n. */
  ghost predicate Fresh(trace: seq<Act>, i: nat, n: nat)
    requires n <= |trace|
  {
    i < n && forall j | i < j < n :: trace[j] != ConnectionLost
  }

  ghost predicate Shows(a: Act, key: Key) {
    a.RosterSeen? && a.room == key.room && key.peer in a.peers
  }

  /** At moment n, a roster of this connection shows the key's peer in its room. */
  ghost predicate Shown(trace: seq<Act>, n: nat, key: Key)
    requires n <= |trace|
  {
    exists i: nat :: Fresh(trace, i, n) && Shows(trace[i], key)
  }

  /** At moment n, an SDP offer was sent to the key over this connection. */
  ghost predicate Called(trace: seq<Act>, n: nat, key: Key)
    requires n <= |trace|
  {
    exists i: nat :: Fresh(trace, i, n) && trace[i] == SdpSent(key)
  }

  ghost predicate Names(a: Act, name: Name, room: Room) {
    a.RosterSeen? && a.room == room && (a.who == name || name in a.peers)
  }

  /** The client's own join of `room` was noticed, or a roster of it names the client. */
  ghost predicate Member(trace: seq<Act>, name: Name, room: Room) {
    exists i :: 0 <= i < |trace| && Names(trace[i], name, room)
  }

  ghost predicate Since(trace: seq<Act>, from: nat, a: Act) {
    exists i :: from <= i < |trace| && trace[i] == a
  }

  /** Between act k and moment n no connection was lost. */
  ghost predicate Unbroken(trace: seq<Act>, k: nat, n: nat)
    requires n <= |trace|
  {
    forall j | k < j < n :: trace[j] != ConnectionLost
  }

  /** A roster seen after act k shows the peer, and no connection was lost after it. */
  ghost predicate ShownAgain(trace: seq<Act>, k: nat, n: nat, key: Key)
    requires n <= |trace|
  {
    exists i: nat :: k < i && Fresh(trace, i, n) && Shows(trace[i], key)
  }

  /** The peer was found as act j, then its channel as act k, and since then only other threads acted. */
  ghost predicate Found(trace: seq<Act>, j: nat, k: nat, n: nat, key: Key) {
    && j < k < n <= |trace| && trace[j] == PeerSeen(key) && trace[k] == ChannelSeen(key)
    && forall m | k < m < n :: ByOthers(trace[m])
  }

  /** After moment `from` the peer and then its channel were found, and then came act i. */
  ghost predicate Prepared(trace: seq<Act>, from: nat, i: nat, key: Key) {
    exists j, k :: from <= j && Found(trace, j, k, i, key)
  }

  /**
   * What is so at moment n: the roster behind the peer is of the present connection if and only if none was lost since
   * act j or a later roster shows the peer again, and the SDP offer behind the channel is if and only if none was lost
   * since act k.
   */
  ghost predicate Backed(trace: seq<Act>, j: nat, k: nat, n: nat, key: Key)
    requires n <= |trace|
  {
    && (Shown(trace, n, key) <==> Unbroken(trace, j, n) || ShownAgain(trace, j, n, key))
    && (Called(trace, n, key) <==> Unbroken(trace, k, n))
  }

  function KeyOf(spec: FileSpec): Key {
    Key(spec.peer, spec.room)
  }

  /**
   * Every offer comes after finding its peer in its room and then its channel in the table; and at each of these two
   * moments a roster, or an SDP offer, of the connection of that moment says so.
   */
  ghost predicate OffersInOrder(trace: seq<Act>) {
    forall i | 0 <= i < |trace| :: InOrder(trace, i)
  }

  ghost predicate InOrder(trace: seq<Act>, i: nat)
    requires i < |trace|
  {
    match trace[i]
    case PeerSeen(key) => Shown(trace, i, key)
    case ChannelSeen(key) => Called(trace, i, key)
    case FileOffered(spec) => Prepared(trace, 0, i, KeyOf(spec))
    case _ => true
  }

  /** The tables hold nothing that this connection does not account for. */
  ghost predicate Explained(trace: seq<Act>, rooms: Rosters.Table, channels: set<Key>) {
    && (forall r, p | r in rooms && p in rooms[r] :: Shown(trace, |trace|, Key(p, r)))
    && (forall k | k in channels :: Called(trace, |trace|, k))
  }

  /** The roster that showed the peer is of the connection of moment n exactly if none was lost, or one came again. */
  lemma ShownExactly(trace: seq<Act>, k: nat, n: nat, key: Key)
    requires k < n <= |trace| && trace[k] == PeerSeen(key) && Shown(trace, k, key)
    ensures Shown(trace, n, key) <==> Unbroken(trace, k, n) || ShownAgain(trace, k, n, key)
  {
    if Unbroken(trace, k, n) {
      var i: nat :| Fresh(trace, i, k) && Shows(trace[i], key);
      assert Fresh(trace, i, n);
    }
    if i: nat :| Fresh(trace, i, n) && Shows(trace[i], key) {
      assert i < k ==> Unbroken(trace, k, n);
    }
  }

  /** While only other threads act, the SDP offer is of the present connection exactly if none was lost. */
  lemma CalledExactly(trace: seq<Act>, k: nat, n: nat, key: Key)
    requires k < n <= |trace| && trace[k] == ChannelSeen(key) && Called(trace, k, key)
    requires forall j | k < j < n :: ByOthers(trace[j])
    ensures Called(trace, n, key) <==> Unbroken(trace, k, n)
  {
    if Unbroken(trace, k, n) {
      var i: nat :| Fresh(trace, i, k) && trace[i] == SdpSent(key);
      assert Fresh(trace, i, n);
    }
    if i: nat :| Fresh(trace, i, n) && trace[i] == SdpSent(key) {
      assert i < k;
    }
  }

  /** So an offer may outlive its roster: it was seen over a connection that was lost before the channel was made. */
  lemma OfferOutlivesRoster(spec: FileSpec, who: Name)
    ensures var key := KeyOf(spec);
            var trace := [RosterSeen(spec.room, who, {spec.peer}), PeerSeen(key), ConnectionLost, SdpSent(key),
                          ChannelSeen(key), FileOffered(spec)];
            OffersInOrder(trace) && Called(trace, 5, key) && !Shown(trace, 5, key)
  {
    var key := KeyOf(spec);
    var trace := [RosterSeen(spec.room, who, {spec.peer}), PeerSeen(key), ConnectionLost, SdpSent(key),
                  ChannelSeen(key), FileOffered(spec)];
    assert Fresh(trace, 0, 1) && Shows(trace[0], key);
    assert Fresh(trace, 3, 4) && Fresh(trace, 3, 5);
    ShownExactly(trace, 1, 5, key);
    CalledExactly(trace, 4, 5, key);
    assert trace[2] == ConnectionLost;
    assert Found(trace, 1, 4, 5, key);
  }

  /** What is so at a moment does not depend on what comes after it. */
  lemma StillSo(trace: seq<Act>, n: nat, key: Key, more: seq<Act>)
    requires n <= |trace|
    ensures Shown(trace, n, key) <==> Shown(trace + more, n, key)
    ensures Called(trace, n, key) <==> Called(trace + more, n, key)
    ensures forall k: nat :: ShownAgain(trace, k, n, key) <==> ShownAgain(trace + more, k, n, key)
  {
    var after := trace + more;
    assert forall j | 0 <= j < n :: after[j] == trace[j];
    assert forall i: nat :: Fresh(trace, i, n) <==> Fresh(after, i, n);
  }

  lemma StillFound(trace: seq<Act>, j: nat, k: nat, n: nat, key: Key, later: seq<Act>)
    requires trace <= later && Found(trace, j, k, n, key)
    ensures Found(later, j, k, n, key)
  {
    assert forall m | 0 <= m < n :: later[m] == trace[m];
  }

  lemma StillPrepared(trace: seq<Act>, n: nat, key: Key, more: seq<Act>, from: nat)
    requires n <= |trace| && Prepared(trace, from, n, key)
    ensures Prepared(trace + more, from, n, key)
  {
    var j, k :| from <= j && Found(trace, j, k, n, key);
    StillFound(trace, j, k, n, key, trace + more);
  }

  /** And the next moment it is so as well, unless the connection was lost. */
  lemma NextMoment(trace: seq<Act>, key: Key, a: Act)
    requires a != ConnectionLost
    ensures Shown(trace, |trace|, key) ==> Shown(trace + [a], |trace| + 1, key)
    ensures Called(trace, |trace|, key) ==> Called(trace + [a], |trace| + 1, key)
  {
    var n, after := |trace|, trace + [a];
    if i: nat :| Fresh(trace, i, n) && Shows(trace[i], key) {
      assert Fresh(after, i, n + 1) && after[i] == trace[i];
    }
    if i: nat :| Fresh(trace, i, n) && trace[i] == SdpSent(key) {
      assert Fresh(after, i, n + 1) && after[i] == trace[i];
    }
  }

  lemma ActInOrder(trace: seq<Act>, a: Act)
    requires OffersInOrder(trace)
    requires a.PeerSeen? ==> Shown(trace, |trace|, a.key)
    requires a.ChannelSeen? ==> Called(trace, |trace|, a.key)
    requires a.FileOffered? ==> Prepared(trace, 0, |trace|, KeyOf(a.spec))
    ensures OffersInOrder(trace + [a])
  {
    var after := trace + [a];
    forall i | 0 <= i < |after| ensures InOrder(after, i) {
      assert i < |trace| ==> after[i] == trace[i] && InOrder(trace, i);
      if after[i].PeerSeen? || after[i].ChannelSeen? {
        StillSo(trace, i, after[i].key, [a]);
      } else if after[i].FileOffered? {
        StillPrepared(trace, i, KeyOf(after[i].spec), [a], 0);
      }
    }
  }

  lemma StillExplained(trace: seq<Act>, rooms: Rosters.Table, channels: set<Key>, a: Act)
    requires Explained(trace, rooms, channels) && a != ConnectionLost
    ensures Explained(trace + [a], rooms, channels)
  {
    forall r, p | r in rooms && p in rooms[r] ensures Shown(trace + [a], |trace| + 1, Key(p, r)) {
      NextMoment(trace, Key(p, r), a);
    }
    forall k | k in channels ensures Called(trace + [a], |trace| + 1, k) {
      NextMoment(trace, k, a);
    }
  }

  lemma RosterExplained(trace: seq<Act>, rooms: Rosters.Table, channels: set<Key>, a: Act)
    requires Explained(trace, rooms, channels) && a.RosterSeen?
    ensures Explained(trace + [a], rooms[a.room := a.peers], channels)
  {
    StillExplained(trace, rooms, channels, a);
    forall p | p in a.peers ensures Shown(trace + [a], |trace| + 1, Key(p, a.room)) {
      assert Fresh(trace + [a], |trace|, |trace| + 1);
    }
  }

  lemma CallExplained(trace: seq<Act>, rooms: Rosters.Table, channels: set<Key>, key: Key)
    requires Explained(trace, rooms, channels)
    ensures Explained(trace + [SdpSent(key)], rooms, channels + {key})
  {
    StillExplained(trace, rooms, channels, SdpSent(key));
    assert Fresh(trace + [SdpSent(key)], |trace|, |trace| + 1);
  }

  lemma MemberLater(trace: seq<Act>, later: seq<Act>, name: Name, room: Room)
    requires trace <= later
    ensures Member(trace, name, room) ==> Member(later, name, room)
  {
    if i :| 0 <= i < |trace| && Names(trace[i], name, room) {
      assert later[i] == trace[i];
    }
  }

  // ---- Which files were offered ----

  function Offers(trace: seq<Act>): seq<FileSpec> {
    if trace == [] then [] else
    var n := |trace| - 1;
    Offers(trace[..n]) + if trace[n].FileOffered? then [trace[n].spec] else []
  }

  /** The entries at the places that are marked. */
  function Pick(specs: seq<FileSpec>, marks: seq<bool>): seq<FileSpec>
    requires |marks| <= |specs|
  {
    if marks == [] then [] else
    var n := |marks| - 1;
    Pick(specs, marks[..n]) + if marks[n] then [specs[n]] else []
  }

  lemma OneAct(trace: seq<Act>, a: Act)
    ensures Offers(trace + [a]) == Offers(trace) + if a.FileOffered? then [a.spec] else []
  {
    assert (trace + [a])[..|trace|] == trace;
  }

  lemma SinceLater(trace: seq<Act>, i: nat, later: seq<Act>, from: nat, a: Act)
    requires trace <= later && from <= i < |trace| && trace[i] == a
    ensures Since(later, from, a)
  {
    assert later[i] == a;
  }

  /** An offer whose peer and channel were found is backed, or not, exactly as said. */
  lemma FoundMeansBacked(trace: seq<Act>, j: nat, k: nat, n: nat, key: Key)
    requires OffersInOrder(trace) && Found(trace, j, k, n, key)
    ensures Backed(trace, j, k, n, key)
  {
    assert InOrder(trace, j) && InOrder(trace, k);
    ShownExactly(trace, j, n, key);
    CalledExactly(trace, k, n, key);
  }

  /** So every offer there ever was has the two acts behind it that decide whether it is backed. */
  lemma EveryOfferBacked(trace: seq<Act>, n: nat) returns (j: nat, k: nat)
    requires OffersInOrder(trace) && n < |trace| && trace[n].FileOffered?
    ensures Found(trace, j, k, n, KeyOf(trace[n].spec)) && Backed(trace, j, k, n, KeyOf(trace[n].spec))
  {
    assert InOrder(trace, n);
    var key := KeyOf(trace[n].spec);
    j, k :| Found(trace, j, k, n, key);
    FoundMeansBacked(trace, j, k, n, key);
  }

  /** The acts of an offer: finding the peer, finding the channel, offering. */
  datatype Story = Story(peer: nat, channel: nat, offer: nat)

  ghost predicate Told(trace: seq<Act>, story: Story, spec: FileSpec) {
    && story.offer < |trace| && trace[story.offer] == FileOffered(spec)
    && Found(trace, story.peer, story.channel, story.offer, KeyOf(spec))
  }

  lemma StillTold(trace: seq<Act>, story: Story, spec: FileSpec, later: seq<Act>)
    requires trace <= later && Told(trace, story, spec)
    ensures Told(later, story, spec)
  {
    StillFound(trace, story.peer, story.channel, story.offer, KeyOf(spec), later);
  }
}
