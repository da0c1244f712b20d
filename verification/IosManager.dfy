/**
 * The iOS client's connection manager (ConnectionManager.swift). All its steps run on one actor, in any order: what the
 * user does, messages, and what becomes of the peer session, late news of an earlier session included.
 */
module IosManager {
  import opened Wrappers

  type Uuid = string

  datatype Config = Config(name: string, room: string, peerName: string, peerRoom: string)

  datatype Phase =
    | Idle | ConnectingToServer | JoiningRooms | WaitingForPeer | Negotiating | Ready
    | Failed(reason: string)

  /** A member is None when it is missing or of another type. */
  datatype Message =
    | Join(room: Option<string>, who: Option<string>, peers: Option<set<string>>)
    | Leave(room: Option<string>, who: Option<string>, peers: Option<set<string>>)
    | Response(accepts: bool, uuid: Option<Uuid>)
    | Other

  /** How often a waiter for an answer was resumed, and with what. */
  datatype Resume = Resume(uuid: Uuid, accepted: bool)

  /** Sessions are told apart by number. registered and resumed are history. */
  datatype State = State(
    phase: Phase, config: Option<Config>, signaling: bool, session: Option<nat>, joinedRooms: set<string>,
    roomPeers: map<string, set<string>>, waiters: set<Uuid>, registered: set<Uuid>, resumed: multiset<Resume>)

  const START := State(Idle, None, false, None, {}, map[], {}, {}, multiset{})

  datatype Event =
    | Connected(config: Config, addressOk: bool)
    | Disconnected
    | Received(message: Message)
    | Failure(reason: string)
    | SessionCreated(session: nat)
    | SessionOpened
    | TimedOut(session: nat)
    | OfferSent(uuid: Uuid)

  function Refusals(waiters: set<Uuid>): multiset<Resume> {
    multiset(set u | u in waiters :: Resume(u, false))
  }

  function AfterDisconnect(s: State): State {
    State(Idle, None, false, None, {}, map[], {}, s.registered, s.resumed + Refusals(s.waiters))
  }

  function Fail(s: State, reason: string): State {
    if s.phase == Idle then s else AfterDisconnect(s).(phase := Failed(reason))
  }

  function Connect(s: State, config: Config, addressOk: bool): State {
    var clean := AfterDisconnect(s);
    if addressOk then clean.(phase := JoiningRooms, config := Some(config), signaling := true)
    else clean.(phase := Failed("Invalid server address"))
  }

  function PeersIn(s: State, room: string): set<string> {
    if room in s.roomPeers then s.roomPeers[room] else {}
  }

  function Advance(s: State): State {
    if s.config.None? || s.phase == Negotiating || s.phase == Ready then s else
    var c := s.config.value;
    if !({c.room, c.peerRoom} <= s.joinedRooms) then s
    else if c.peerName !in PeersIn(s, c.peerRoom) then s.(phase := WaitingForPeer)
    else s.(phase := Negotiating)
  }

  function Receive(s: State, m: Message): State {
    if s.config.None? then s else
    match m
    case Join(room, who, peers) =>
      if room.None? || peers.None? then s else
      Advance(s.(roomPeers := s.roomPeers[room.value := peers.value],
                 joinedRooms := if who == Some(s.config.value.name)
                                then s.joinedRooms + {room.value} else s.joinedRooms))
    case Leave(room, who, peers) =>
      if room.None? || peers.None? then s else
      var told := s.(roomPeers := s.roomPeers[room.value := peers.value]);
      if who == Some(s.config.value.peerName) && room.value == s.config.value.peerRoom && s.phase == Ready
      then Fail(told, "Peer left the room") else told
    case Response(accepts, uuid) =>
      if uuid.None? || uuid.value !in s.waiters then s
      else s.(waiters := s.waiters - {uuid.value}, resumed := s.resumed + multiset{Resume(uuid.value, accepts)})
    case Other => s
  }

  /** An offer is made only when everything is up; its waiter's uuid is new. */
  predicate MayOffer(s: State, uuid: Uuid) {
    uuid !in s.registered && s.config.Some? && s.signaling && s.session.Some? && s.phase == Ready
  }

  function Step(s: State, e: Event): State {
    match e
    case Connected(config, addressOk) => Connect(s, config, addressOk)
    case Disconnected => AfterDisconnect(s)
    case Received(message) => Receive(s, message)
    case Failure(reason) => Fail(s, reason)
    case SessionCreated(session) =>
      if s.phase == Negotiating && s.session == None then s.(session := Some(session)) else s
    case SessionOpened => if s.phase == Negotiating then s.(phase := Ready) else s
    case TimedOut(session) =>
      if s.phase == Negotiating && s.session == Some(session)
      then Fail(s, "Timed out waiting for the data channel") else s
    case OfferSent(uuid) =>
      if MayOffer(s, uuid) then s.(waiters := s.waiters + {uuid}, registered := s.registered + {uuid}) else s
  }

  function Run(events: seq<Event>): State {
    if events == [] then START else Step(Run(events[..|events| - 1]), events[|events| - 1])
  }

  // ---- Every waiter is resumed exactly once ----

  function Times(s: State, u: Uuid): nat {
    s.resumed[Resume(u, true)] + s.resumed[Resume(u, false)]
  }

  ghost predicate ExactlyOnce(s: State) {
    && s.waiters <= s.registered
    && forall u :: Times(s, u) == if u in s.registered && u !in s.waiters then 1 else 0
  }

  lemma DisconnectOnce(s: State)
    requires ExactlyOnce(s)
    ensures ExactlyOnce(AfterDisconnect(s))
  {
    var d := AfterDisconnect(s);
    forall u ensures Times(d, u) == if u in d.registered then 1 else 0 {
      assert Refusals(s.waiters)[Resume(u, true)] == 0;
      assert Refusals(s.waiters)[Resume(u, false)] == if u in s.waiters then 1 else 0;
      assert Times(d, u) == Times(s, u) + if u in s.waiters then 1 else 0;
    }
  }

  lemma ResponseOnce(s: State, accepts: bool, uuid: Option<Uuid>)
    requires ExactlyOnce(s)
    ensures ExactlyOnce(Receive(s, Response(accepts, uuid)))
  {
    var d := Receive(s, Response(accepts, uuid));
    forall u ensures Times(d, u) == if u in d.registered && u !in d.waiters then 1 else 0 {
      assert Times(s, u) == if u in s.registered && u !in s.waiters then 1 else 0;
    }
  }

  lemma SameWaiters(s: State, d: State)
    requires ExactlyOnce(s) && d.waiters == s.waiters && d.registered == s.registered && d.resumed == s.resumed
    ensures ExactlyOnce(d)
  {
    forall u ensures Times(d, u) == Times(s, u) {}
  }

  lemma FailOnce(s: State, reason: string)
    requires ExactlyOnce(s)
    ensures ExactlyOnce(Fail(s, reason))
  {
    DisconnectOnce(s);
    if s.phase != Idle {
      SameWaiters(AfterDisconnect(s), Fail(s, reason));
    }
  }

  lemma ReceiveOnce(s: State, m: Message)
    requires ExactlyOnce(s)
    ensures ExactlyOnce(Receive(s, m))
  {
    match m
    case Join(_, _, _) => SameWaiters(s, Receive(s, m));
    case Leave(room, _, peers) =>
      if room.Some? && peers.Some? {
        var told := s.(roomPeers := s.roomPeers[room.value := peers.value]);
        SameWaiters(s, told);
        FailOnce(told, "Peer left the room");
      }
    case Response(accepts, uuid) => ResponseOnce(s, accepts, uuid);
    case Other =>
  }

  lemma StepOnce(s: State, e: Event)
    requires ExactlyOnce(s)
    ensures ExactlyOnce(Step(s, e))
  {
    var d := Step(s, e);
    match e
    case Connected(config, addressOk) =>
      DisconnectOnce(s);
      SameWaiters(AfterDisconnect(s), d);
    case Disconnected => DisconnectOnce(s);
    case Received(message) => ReceiveOnce(s, message);
    case Failure(reason) => FailOnce(s, reason);
    case TimedOut(session) => FailOnce(s, "Timed out waiting for the data channel");
    case SessionCreated(_) => SameWaiters(s, d);
    case SessionOpened => SameWaiters(s, d);
    case OfferSent(uuid) =>
      forall u ensures Times(d, u) == Times(s, u) {}
  }

  /** What each state says about the rest. */
  ghost predicate Orderly(s: State) {
    && s.signaling == s.config.Some?
    && (s.waiters != {} ==> s.phase == Ready)
    && (s.phase == Idle || s.phase.Failed? ==>
          s.config == None && s.session == None && s.joinedRooms == {} && s.roomPeers == map[] && s.waiters == {})
    && (s.phase == Negotiating || s.phase == Ready ==>
          s.config.Some? && s.config.value.room in s.joinedRooms && s.config.value.peerRoom in s.joinedRooms)
    && (s.session.Some? ==> s.phase == Negotiating || s.phase == Ready)
    && (s.config.None? ==> s.phase == Idle || s.phase.Failed?)
  }

  lemma ReceiveOrderly(s: State, m: Message)
    requires Orderly(s)
    ensures Orderly(Receive(s, m))
  {}

  lemma StepOrderly(s: State, e: Event)
    requires Orderly(s)
    ensures Orderly(Step(s, e))
  {
    if e.Received? {
      ReceiveOrderly(s, e.message);
    }
  }

  /**
   * In every run each waiter is still waiting or was resumed exactly once; a waiter means that the manager is ready; an
   * idle or failed manager has nothing left over; a negotiating or ready one has joined both its rooms.
   */
  lemma {:induction false} WaitersExactlyOnce(events: seq<Event>)
    ensures ExactlyOnce(Run(events)) && Orderly(Run(events))
  {
    if events != [] {
      WaitersExactlyOnce(events[..|events| - 1]);
      StepOnce(Run(events[..|events| - 1]), events[|events| - 1]);
      StepOrderly(Run(events[..|events| - 1]), events[|events| - 1]);
    }
  }

  lemma RefusalsRefuse(waiters: set<Uuid>, u: Uuid)
    ensures Refusals(waiters)[Resume(u, true)] == 0
  {}

  lemma FailAccepts(s: State, reason: string, u: Uuid)
    ensures Fail(s, reason).resumed[Resume(u, true)] == s.resumed[Resume(u, true)]
    ensures AfterDisconnect(s).resumed[Resume(u, true)] == s.resumed[Resume(u, true)]
  {
    RefusalsRefuse(s.waiters, u);
  }

  lemma ReceiveAccepts(s: State, m: Message, u: Uuid)
    requires Receive(s, m).resumed[Resume(u, true)] > s.resumed[Resume(u, true)]
    ensures m == Response(true, Some(u))
  {
    if m.Leave? && m.room.Some? && m.peers.Some? {
      FailAccepts(s.(roomPeers := s.roomPeers[m.room.value := m.peers.value]), "Peer left the room", u);
    }
  }

  lemma StepAccepts(s: State, e: Event, u: Uuid)
    requires Step(s, e).resumed[Resume(u, true)] > s.resumed[Resume(u, true)]
    ensures e == Received(Response(true, Some(u)))
  {
    match e
    case Received(m) => ReceiveAccepts(s, m, u);
    case Failure(reason) => FailAccepts(s, reason, u);
    case TimedOut(_) => FailAccepts(s, "Timed out waiting for the data channel", u);
    case _ => FailAccepts(s, "", u);
  }

  /** A waiter is told that its offer was accepted only by an acceptance of that offer. */
  lemma {:induction false} AcceptedByMessage(events: seq<Event>, u: Uuid)
    requires Run(events).resumed[Resume(u, true)] > 0
    ensures Received(Response(true, Some(u))) in events
  {
    var n := |events| - 1;
    var s := Run(events[..n]);
    if s.resumed[Resume(u, true)] > 0 {
      AcceptedByMessage(events[..n], u);
      assert forall x | x in events[..n] :: x in events;
    } else {
      StepAccepts(s, events[n], u);
      assert events[n] in events;
    }
  }

  /** An answer resumes its waiter, with what it says; any other answer resumes nobody. */
  lemma AnswerResumes(s: State, accepts: bool, u: Uuid)
    requires ExactlyOnce(s) && s.config.Some?
    ensures var d := Receive(s, Response(accepts, Some(u)));
            if u in s.waiters
            then u !in d.waiters && d.resumed[Resume(u, accepts)] == 1 && d.resumed[Resume(u, !accepts)] == 0
            else d == s
    ensures forall v | v != u :: (v in Receive(s, Response(accepts, Some(u))).waiters <==> v in s.waiters)
  {
    assert Times(s, u) == if u in s.registered && u !in s.waiters then 1 else 0;
  }

  /** Ending a connection, for whatever reason, resumes everyone who still waits, with a refusal. */
  lemma EndRefuses(s: State, u: Uuid)
    requires ExactlyOnce(s) && u in s.waiters
    ensures var d := AfterDisconnect(s);
            d.waiters == {} && d.resumed[Resume(u, false)] == 1 && d.resumed[Resume(u, true)] == 0
  {
    assert Times(s, u) == 0;
    RefusalsRefuse(s.waiters, u);
    assert Refusals(s.waiters)[Resume(u, false)] == 1;
  }

  // ---- What moves the manager on ----

  /** Both rooms are joined and the peer is in its room. */
  predicate MayNegotiate(s: State) {
    s.config.Some? &&
    var c := s.config.value;
    {c.room, c.peerRoom} <= s.joinedRooms && c.peerName in PeersIn(s, c.peerRoom)
  }

  /** The manager starts to negotiate exactly when a roster finds it able to and not yet at it. */
  lemma NegotiatesExactly(s: State, e: Event)
    requires Orderly(s) && s.phase != Negotiating
    ensures Step(s, e).phase == Negotiating <==>
            e.Received? && e.message.Join? && e.message.room.Some? && e.message.peers.Some? &&
            s.phase != Ready && MayNegotiate(Step(s, e))
  {}

  /** It becomes ready exactly by the news of an opening while it negotiates. */
  lemma ReadyExactly(s: State, e: Event)
    requires s.phase != Ready
    ensures Step(s, e).phase == Ready <==> s.phase == Negotiating && e == SessionOpened
  {}

  /** It waits for its peer exactly when a roster finds both rooms joined and the peer missing, or as it did before. */
  lemma WaitsExactly(s: State, e: Event)
    requires Orderly(s) && s.phase != WaitingForPeer
    ensures Step(s, e).phase == WaitingForPeer <==>
            && e.Received? && e.message.Join? && e.message.room.Some? && e.message.peers.Some?
            && s.config.Some? && s.phase != Negotiating && s.phase != Ready
            && {s.config.value.room, s.config.value.peerRoom} <= Step(s, e).joinedRooms
            && s.config.value.peerName !in PeersIn(Step(s, e), s.config.value.peerRoom)
  {}

  /** Who leaves a room is told by the roster, which is what the room then holds if the manager stays connected. */
  lemma LeaveKept(s: State, room: string, who: Option<string>, peers: set<string>, other: string)
    requires s.config.Some?
    ensures var d := Receive(s, Leave(Some(room), who, Some(peers)));
            && (d.phase.Failed? && !s.phase.Failed? ==> d.waiters == {} && d.roomPeers == map[])
            && (!d.phase.Failed? ==>
                  && PeersIn(d, room) == peers && (other != room ==> PeersIn(d, other) == PeersIn(s, other))
                  && d.phase == s.phase && d.joinedRooms == s.joinedRooms && d.waiters == s.waiters)
  {}

  /** A roster is what its room then holds, and the client's own name on it means that the room is joined. */
  lemma RosterKept(s: State, room: string, who: Option<string>, peers: set<string>, other: string)
    requires s.config.Some?
    ensures var d := Receive(s, Join(Some(room), who, Some(peers)));
            && PeersIn(d, room) == peers && (other != room ==> PeersIn(d, other) == PeersIn(s, other))
            && (room in d.joinedRooms <==> room in s.joinedRooms || who == Some(s.config.value.name))
            && (other != room ==> (other in d.joinedRooms <==> other in s.joinedRooms))
  {}

  /** A connected manager fails exactly by a failure, by its negotiation running out of time, or by its peer leaving. */
  lemma FailsExactly(s: State, e: Event)
    requires Orderly(s) && s.config.Some?
    ensures Step(s, e).phase.Failed? <==>
            || e.Failure?
            || (e.Connected? && !e.addressOk)
            || (e.TimedOut? && s.phase == Negotiating && s.session == Some(e.session))
            || (e.Received? && e.message.Leave? && e.message.room == Some(s.config.value.peerRoom) &&
                e.message.peers.Some? && e.message.who == Some(s.config.value.peerName) && s.phase == Ready)
  {}

  // ---- A ready manager and its session ----

  ghost predicate ReadyHasSession(s: State) {
    s.phase == Ready ==> s.session.Some?
  }

  /** Every step keeps it but one: news that a session opened while the present negotiation has none yet. */
  lemma SessionKeptExactly(s: State, e: Event)
    requires Orderly(s) && ReadyHasSession(s)
    ensures ReadyHasSession(Step(s, e)) <==> !(e == SessionOpened && s.phase == Negotiating && s.session == None)
  {}

  /**
   * Which can happen, as the tasks that bring news to the manager's actor have no promised order: the session of the
   * first connection opens, the user reconnects, and the news of the opening comes only after both rooms are joined
   * again. The manager is then ready for good without a session, since the one being created is turned away.
   */
  lemma LateOpenLeavesNoSession(config: Config, first: nat, second: nat)
    ensures var both := Some({config.name, config.peerName});
            var joins := [Received(Join(Some(config.room), Some(config.name), both)),
                          Received(Join(Some(config.peerRoom), Some(config.name), both))];
            var run := [Connected(config, true)] + joins + [SessionCreated(first), Connected(config, true)] + joins
                       + [SessionOpened, SessionCreated(second)];
            && Run(run[..4]).session == Some(first)
            && Run(run).phase == Ready && Run(run).session == None
  {
    var both := Some({config.name, config.peerName});
    var j1 := Received(Join(Some(config.room), Some(config.name), both));
    var j2 := Received(Join(Some(config.peerRoom), Some(config.name), both));
    var r3 := [] + [Connected(config, true)] + [j1] + [j2];
    var r4 := r3 + [SessionCreated(first)];
    var r7 := r4 + [Connected(config, true)] + [j1] + [j2];
    Rejoined([], config, both.value);
    RunOne(r3, SessionCreated(first));
    Rejoined(r4, config, both.value);
    RunOne(r7, SessionOpened);
    RunOne(r7 + [SessionOpened], SessionCreated(second));
    LateRun(config, j1, j2, first, second);
  }

  lemma LateRun(config: Config, j1: Event, j2: Event, first: nat, second: nat)
    ensures var run := [Connected(config, true)] + [j1, j2] + [SessionCreated(first), Connected(config, true)]
                       + [j1, j2] + [SessionOpened, SessionCreated(second)];
            var r4 := [] + [Connected(config, true)] + [j1] + [j2] + [SessionCreated(first)];
            && run[..4] == r4
            && run == r4 + [Connected(config, true)] + [j1] + [j2] + [SessionOpened] + [SessionCreated(second)]
  {}

  function JoinBoth(s: State, config: Config, both: set<string>): State {
    Receive(Receive(s, Join(Some(config.room), Some(config.name), Some(both))),
            Join(Some(config.peerRoom), Some(config.name), Some(both)))
  }

  /** A fresh connection that joins both rooms with its peer there negotiates. */
  lemma JoinedBoth(s: State, config: Config, both: set<string>)
    requires both == {config.name, config.peerName}
    ensures var after := JoinBoth(Connect(s, config, true), config, both);
            after.phase == Negotiating && after.session == None
  {
    var joined := Receive(Connect(s, config, true), Join(Some(config.room), Some(config.name), Some(both)));
    if config.room != config.peerRoom {
      assert joined.phase == JoiningRooms && joined.joinedRooms == {config.room};
      var told := joined.(roomPeers := joined.roomPeers[config.peerRoom := both],
                          joinedRooms := joined.joinedRooms + {config.peerRoom});
      assert Receive(joined, Join(Some(config.peerRoom), Some(config.name), Some(both))) == Advance(told);
      assert config.peerName in PeersIn(told, config.peerRoom);
    }
  }

  lemma RunOne(events: seq<Event>, e: Event)
    ensures Run(events + [e]) == Step(Run(events), e)
  {
    assert (events + [e])[..|events|] == events;
  }

  lemma RunJoins(s: State, a: seq<Event>, config: Config, both: set<string>)
    requires Run(a) == s
    ensures var b := a + [Received(Join(Some(config.room), Some(config.name), Some(both)))];
            Run(b + [Received(Join(Some(config.peerRoom), Some(config.name), Some(both)))]) == JoinBoth(s, config, both)
  {
    var b := a + [Received(Join(Some(config.room), Some(config.name), Some(both)))];
    RunOne(a, Received(Join(Some(config.room), Some(config.name), Some(both))));
    RunOne(b, Received(Join(Some(config.peerRoom), Some(config.name), Some(both))));
  }

  lemma Rejoined(before: seq<Event>, config: Config, both: set<string>)
    requires both == {config.name, config.peerName}
    ensures var b := before + [Connected(config, true)] +
            [Received(Join(Some(config.room), Some(config.name), Some(both)))];
            var c := b + [Received(Join(Some(config.peerRoom), Some(config.name), Some(both)))];
            Run(c).phase == Negotiating && Run(c).session == None
  {
    RunOne(before, Connected(config, true));
    JoinedBoth(Run(before), config, both);
    RunJoins(Connect(Run(before), config, true), before + [Connected(config, true)], config, both);
  }

  // ---- The manager ----

  lemma RefuseOneMore(told: set<Uuid>, u: Uuid)
    requires u !in told
    ensures Refusals(told + {u}) == Refusals(told) + multiset{Resume(u, false)}
  {
    assert (set v | v in told + {u} :: Resume(v, false)) ==
           (set v | v in told :: Resume(v, false)) + {Resume(u, false)};
  }

  class ConnectionManager {
    var phase: Phase
    var config: Option<Config>
    var signaling: bool
    var session: Option<nat>
    var joinedRooms: set<string>
    var roomPeers: map<string, set<string>>
    var acceptWaiters: set<Uuid>
    ghost var registered: set<Uuid>
    ghost var resumed: multiset<Resume>

    ghost function Now(): State
      reads this
    {
      State(phase, config, signaling, session, joinedRooms, roomPeers, acceptWaiters, registered, resumed)
    }

    constructor ()
      ensures Now() == START
    {
      phase, config, signaling, session := Idle, None, false, None;
      joinedRooms, roomPeers, acceptWaiters, registered, resumed := {}, map[], {}, {}, multiset{};
    }

    /** Every waiter is resumed, in whatever order, with a refusal. */
    method RefuseAll()
      modifies `resumed
      ensures Now() == old(Now()).(resumed := old(resumed) + Refusals(acceptWaiters))
    {
      var todo := acceptWaiters;
      assert Refusals({}) == multiset{};
      while todo != {}
        invariant todo <= acceptWaiters && resumed == old(resumed) + Refusals(acceptWaiters - todo)
        decreases todo
      {
        var u :| u in todo;
        RefuseOneMore(acceptWaiters - todo, u);
        assert acceptWaiters - todo + {u} == acceptWaiters - (todo - {u});
        todo := todo - {u};
        resumed := resumed + multiset{Resume(u, false)};
      }
      assert acceptWaiters - {} == acceptWaiters;
    }

    method Disconnect()
      modifies this
      ensures Now() == AfterDisconnect(old(Now()))
    {
      ghost var before := Now();
      RefuseAll();
      signaling, session, config, phase := false, None, None, Idle;
      joinedRooms, roomPeers, acceptWaiters := {}, map[], {};
      assert Now() == State(Idle, None, false, None, {}, map[], {}, before.registered,
                            before.resumed + Refusals(before.waiters));
    }

    method Connect(newConfig: Config, addressOk: bool)
      modifies this
      ensures Now() == Step(old(Now()), Connected(newConfig, addressOk))
    {
      Disconnect();
      if !addressOk {
        phase := Failed("Invalid server address");
        return;
      }
      config := Some(newConfig);
      phase := ConnectingToServer;
      signaling := true;
      phase := JoiningRooms;
    }

    method Fail(reason: string)
      modifies this
      ensures Now() == Step(old(Now()), Failure(reason))
    {
      if phase == Idle {
        return;
      }
      Disconnect();
      phase := Failed(reason);
    }

    method AdvanceIfPossible()
      modifies `phase
      ensures Now() == Advance(old(Now()))
    {
      if config.None? || phase == Negotiating || phase == Ready {
        return;
      }
      var c := config.value;
      if !({c.room, c.peerRoom} <= joinedRooms) {
        return;
      }
      if !(c.peerRoom in roomPeers && c.peerName in roomPeers[c.peerRoom]) {
        phase := WaitingForPeer;
        return;
      }
      phase := Negotiating;
    }

    method HandleJoin(room: string, who: Option<string>, peers: set<string>)
      requires config.Some?
      modifies `phase, `joinedRooms, `roomPeers
      ensures Now() == Receive(old(Now()), Join(Some(room), who, Some(peers)))
    {
      roomPeers := roomPeers[room := peers];
      if who == Some(config.value.name) {
        joinedRooms := joinedRooms + {room};
      }
      AdvanceIfPossible();
    }

    method HandleLeave(room: string, who: Option<string>, peers: set<string>)
      requires config.Some?
      modifies this
      ensures Now() == Receive(old(Now()), Leave(Some(room), who, Some(peers)))
    {
      roomPeers := roomPeers[room := peers];
      if who == Some(config.value.peerName) && room == config.value.peerRoom && phase == Ready {
        Fail("Peer left the room");
      }
    }

    method HandleResponse(accepts: bool, uuid: Uuid)
      requires config.Some?
      modifies `acceptWaiters, `resumed
      ensures Now() == Receive(old(Now()), Response(accepts, Some(uuid)))
    {
      if uuid in acceptWaiters {
        acceptWaiters := acceptWaiters - {uuid};
        resumed := resumed + multiset{Resume(uuid, accepts)};
      }
    }

    method Handle(message: Message)
      modifies this
      ensures Now() == Receive(old(Now()), message)
    {
      if config.None? {
        return;
      }
      match message {
        case Join(room, who, peers) =>
          if room.Some? && peers.Some? {
            HandleJoin(room.value, who, peers.value);
          }
        case Leave(room, who, peers) =>
          if room.Some? && peers.Some? {
            HandleLeave(room.value, who, peers.value);
          }
        case Response(accepts, uuid) =>
          if uuid.Some? {
            HandleResponse(accepts, uuid.value);
          }
        case Other =>
      }
    }

    /** News that a session was created; one that is not wanted any more is closed. */
    method TakeSession(created: nat) returns (kept: bool)
      modifies `session
      ensures Now() == Step(old(Now()), SessionCreated(created)) &&
              kept == (phase == Negotiating && old(session) == None)
    {
      if phase != Negotiating || session.Some? {
        return false;
      }
      session := Some(created);
      kept := true;
    }

    method OnOpen()
      modifies `phase
      ensures Now() == Step(old(Now()), SessionOpened)
    {
      if phase == Negotiating {
        phase := Ready;
      }
    }

    method OnTimeout(waitingFor: nat)
      modifies this
      ensures Now() == Step(old(Now()), TimedOut(waitingFor))
    {
      if phase == Negotiating && session == Some(waitingFor) {
        Fail("Timed out waiting for the data channel");
      }
    }

    /** The part of a send before its answer comes. */
    method OfferFile(uuid: Uuid) returns (waiting: bool)
      requires uuid !in registered
      modifies `acceptWaiters, `registered
      ensures Now() == Step(old(Now()), OfferSent(uuid)) && waiting == MayOffer(old(Now()), uuid)
    {
      if config.None? || !signaling || session.None? || phase != Ready {
        return false;
      }
      acceptWaiters, registered := acceptWaiters + {uuid}, registered + {uuid};
      waiting := true;
    }
  }
}
