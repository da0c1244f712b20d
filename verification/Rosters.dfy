/**
 * Clients and server together: sockets open, join, leave and close in any order, and each client takes the
 * messages of its connection in order. The clients' room tables are replaced by the rosters they receive
 * (src/WebRTCClient.cpp, OnJoin and OnLeave).
 */
module Rosters {
  import opened Wrappers
  import opened Messages
  import opened Server

  type Table = map<Room, set<Name>>

  /** tables: a client's own room table for a connection; down: connections their client has already lost. */
  datatype Net = Net(server: State, tables: map<Socket, Table>, down: set<Socket>)

  const QUIET := Net(START, map[], {})

  datatype Event =
    | Opened(sock: Socket, name: Name)
    | Joined(sock: Socket, room: Room)
    | Left(sock: Socket, room: Room)
    | Closed(sock: Socket, order: seq<Room>)
    | Sent(sock: Socket, doc: Doc)
    | Pinged(sock: Socket)
    | Delivered(sock: Socket)
    | Lost(sock: Socket)

  function Apply(t: Table, m: Message): Table {
    if m.Roster? then t[m.room := m.peers] else t
  }

  /** A client's table once it has taken everything sent to it. */
  function ApplyAll(t: Table, queue: seq<Message>): Table
    decreases queue
  {
    if queue == [] then t else ApplyAll(Apply(t, queue[0]), queue[1..])
  }

  ghost predicate Enabled(n: Net, e: Event) {
    match e
    case Opened(sock, _) => sock !in n.server.names
    case Closed(sock, order) => sock in n.server.names && RoomsOf(n.server, n.server.names[sock], order)
    case Delivered(sock) =>
      sock in n.tables && sock !in n.down && sock in n.server.queues && n.server.queues[sock] != []
    case _ => e.sock in n.server.names
  }

  /** An event that cannot happen changes nothing. */
  ghost function Step(n: Net, e: Event): Net {
    var s := n.server;
    if !Enabled(n, e) then n else
    match e
    case Opened(sock, name) => Net(Open(s, sock, name), n.tables[sock := map[]], n.down - {sock})
    case Joined(sock, room) => n.(server := Join(s, sock, room))
    case Left(sock, room) => n.(server := LeaveRoom(s, s.names[sock], room))
    case Closed(sock, order) => n.(server := Close(s, sock, order))
    case Sent(sock, doc) => n.(server := HandleDoc(s, sock, doc))
    case Pinged(sock) => n.(server := Send(s, sock, Pong(s.names[sock])))
    case Delivered(sock) =>
      n.(server := s.(queues := s.queues[sock := s.queues[sock][1..]]),
         tables := n.tables[sock := Apply(n.tables[sock], s.queues[sock][0])])
    case Lost(sock) => n.(tables := n.tables[sock := map[]], down := n.down + {sock})
  }

  ghost function Run(events: seq<Event>): Net {
    if events == [] then QUIET else Step(Run(events[..|events| - 1]), events[|events| - 1])
  }

  // ---- Members have live sockets in every reachable state, shared names or not ----

  lemma StepLive(n: Net, e: Event)
    requires Live(n.server) && n.server.names.Keys <= n.tables.Keys
    ensures Live(Step(n, e).server) && Step(n, e).server.names.Keys <= Step(n, e).tables.Keys
  {
    if Enabled(n, e) {
      match e
      case Closed(sock, order) =>
        CloseLive(n.server, sock, order);
        CloseNames(n.server, sock, order);
      case Left(sock, room) => LeaveLive(n.server, n.server.names[sock], room);
      case Joined(sock, room) => JoinLive(n.server, sock, room);
      case Sent(sock, doc) => HandleLive(n.server, sock, doc);
      case _ =>
    }
  }

  lemma {:induction false} LeaveAllNames(s: State, peer: Name, order: seq<Room>)
    ensures var after := LeaveAll(s, peer, order);
            after.names == s.names && after.db == s.db && after.queues.Keys == s.queues.Keys
  {
    if order != [] {
      LeaveAllNames(s, peer, order[..|order| - 1]);
    }
  }

  lemma CloseNames(s: State, sock: Socket, order: seq<Room>)
    requires sock in s.names
    ensures Close(s, sock, order).names == s.names - {sock} && Close(s, sock, order).db == s.db
  {
    LeaveAllNames(Disconnect(s, sock), s.names[sock], order);
  }

  lemma LeaveLive(s: State, peer: Name, room: Room)
    requires Live(s)
    ensures Live(LeaveRoom(s, peer, room))
  {}

  lemma JoinLive(s: State, sock: Socket, room: Room)
    requires Live(s) && sock in s.names
    ensures Live(Join(s, sock, room))
  {}

  lemma HandleLive(s: State, sock: Socket, doc: Doc)
    requires Live(s) && sock in s.names
    ensures Live(HandleDoc(s, sock, doc))
  {}

  lemma {:induction false} MembersHaveLiveSockets(events: seq<Event>)
    ensures Live(Run(events).server) && Run(events).server.names.Keys <= Run(events).tables.Keys
  {
    if events != [] {
      MembersHaveLiveSockets(events[..|events| - 1]);
      StepLive(Run(events[..|events| - 1]), events[|events| - 1]);
    }
  }

  // ---- Roster agreement ----

  ghost predicate Unique(s: State) {
    forall a, b | a in s.names && b in s.names && s.names[a] == s.names[b] :: a == b
  }

  /** What a client will believe about a room once its connection is drained. */
  ghost function View(n: Net, sock: Socket, room: Room): Option<set<Name>> {
    if sock !in n.tables || sock !in n.server.queues then None else
    var t := ApplyAll(n.tables[sock], n.server.queues[sock]);
    if room in t then Some(t[room]) else None
  }

  ghost predicate AgreeBut(n: Net, leaving: Option<Name>) {
    forall r, p | r in n.server.rooms && p in n.server.rooms[r] && Some(p) != leaving &&
                  p in n.server.db && n.server.db[p] !in n.down ::
      View(n, n.server.db[p], r) == Some(n.server.rooms[r])
  }

  ghost predicate Agree(n: Net) {
    AgreeBut(n, None)
  }

  lemma {:induction false} ApplyAppend(t: Table, queue: seq<Message>, m: Message)
    ensures ApplyAll(t, queue + [m]) == Apply(ApplyAll(t, queue), m)
    decreases queue
  {
    if queue == [] {
      assert [m][1..] == [] && [] + [m] == [m];
    } else {
      assert (queue + [m])[1..] == queue[1..] + [m];
      ApplyAppend(Apply(t, queue[0]), queue[1..], m);
    }
  }

  /** Telling every member of a room its roster settles that room and no other. */
  lemma BroadcastAgrees(n: Net, m: Message, leaving: Option<Name>)
    requires m.Roster? && m.room in n.server.rooms && n.server.rooms[m.room] == m.peers
    requires LiveBut(n.server, leaving) && n.server.names.Keys <= n.tables.Keys
    requires forall r, p | r in n.server.rooms && p in n.server.rooms[r] && r != m.room && Some(p) != leaving &&
                           n.server.db[p] !in n.down :: View(n, n.server.db[p], r) == Some(n.server.rooms[r])
    ensures AgreeBut(n.(server := Broadcast(n.server, m.peers, m)), leaving)
  {
    var s := n.server;
    var after := n.(server := Broadcast(s, m.peers, m));
    forall r, p | r in s.rooms && p in s.rooms[r] && Some(p) != leaving && s.db[p] !in n.down
      ensures View(after, s.db[p], r) == Some(s.rooms[r])
    {
      var sock := s.db[p];
      ApplyAppend(n.tables[sock], s.queues[sock], m);
      if r == m.room {
        assert sock in Targets(s, m.peers);
      } else {
        assert View(n, sock, r) == Some(s.rooms[r]);
      }
    }
  }

  lemma LeaveRoomAgrees(n: Net, peer: Name, room: Room, leaving: Option<Name>)
    requires AgreeBut(n, leaving) && LiveBut(n.server, leaving) && n.server.names.Keys <= n.tables.Keys
    ensures AgreeBut(n.(server := LeaveRoom(n.server, peer, room)), leaving)
  {
    var s := n.server;
    var members := Members(s, room) - {peer};
    var mid := n.(server := s.(rooms := s.rooms[room := members]));
    BroadcastAgrees(mid, Roster(false, peer, room, members), leaving);
  }

  lemma {:induction false} LeaveAllAgrees(n: Net, peer: Name, order: seq<Room>)
    requires AgreeBut(n, Some(peer)) && LiveBut(n.server, Some(peer)) && n.server.names.Keys <= n.tables.Keys
    ensures AgreeBut(n.(server := LeaveAll(n.server, peer, order)), Some(peer))
  {
    if order != [] {
      var k := |order| - 1;
      LeaveAllAgrees(n, peer, order[..k]);
      LeaveAllLive(n.server, peer, order[..k]);
      LeaveAllNames(n.server, peer, order[..k]);
      var mid := n.(server := LeaveAll(n.server, peer, order[..k]));
      LeaveRoomAgrees(mid, peer, order[k], Some(peer));
    }
  }

  lemma CloseAgrees(n: Net, sock: Socket, order: seq<Room>)
    requires Agree(n) && Live(n.server) && n.server.names.Keys <= n.tables.Keys
    requires sock in n.server.names && RoomsOf(n.server, n.server.names[sock], order)
    ensures Agree(n.(server := Close(n.server, sock, order)))
  {
    var s, peer := n.server, n.server.names[sock];
    var gone := n.(server := Disconnect(s, sock));
    assert LiveBut(gone.server, Some(peer));
    assert AgreeBut(gone, Some(peer)) by {
      forall r, p | r in s.rooms && p in s.rooms[r] && p != peer && s.db[p] !in n.down
        ensures View(gone, s.db[p], r) == Some(s.rooms[r])
      {
        assert View(n, s.db[p], r) == Some(s.rooms[r]);
      }
    }
    LeaveAllAgrees(gone, peer, order);
    LeaveAllLive(gone.server, peer, order);
    var after := Close(s, sock, order);
    forall r | r in after.rooms ensures peer !in after.rooms[r] {
      assert Members(after, r) == if r in order then Members(s, r) - {peer} else Members(s, r);
    }
  }

  /**
   * The join that spoils agreement: it moves the name's entry to a connection that is up and that will never have been
   * told the present roster of some other room the name is in.
   */
  ghost predicate Misleads(n: Net, sock: Socket, room: Room) {
    && sock in n.server.names && n.server.names[sock] !in Members(n.server, room) && sock !in n.down
    && exists r | r in n.server.rooms ::
         r != room && n.server.names[sock] in n.server.rooms[r] && View(n, sock, r) != Some(n.server.rooms[r])
  }

  lemma JoinAgrees(n: Net, sock: Socket, room: Room)
    requires Agree(n) && Live(n.server) && n.server.names.Keys <= n.tables.Keys
    requires sock in n.server.names && !Misleads(n, sock, room)
    ensures Agree(n.(server := Join(n.server, sock, room)))
  {
    var s, peer := n.server, n.server.names[sock];
    if peer !in Members(s, room) {
      var members := Members(s, room) + {peer};
      var mid := n.(server := s.(rooms := s.rooms[room := members], db := s.db[peer := sock]));
      forall r, p | r in mid.server.rooms && p in mid.server.rooms[r] && r != room && mid.server.db[p] !in n.down
        ensures View(mid, mid.server.db[p], r) == Some(mid.server.rooms[r])
      {
        assert p in s.rooms[r] && View(mid, mid.server.db[p], r) == View(n, mid.server.db[p], r);
        assert p != peer ==> mid.server.db[p] == s.db[p] && View(n, s.db[p], r) == Some(s.rooms[r]);
      }
      BroadcastAgrees(mid, Roster(true, peer, room, members), None);
    }
  }

  lemma JoinDisagrees(n: Net, sock: Socket, room: Room)
    requires Live(n.server) && Misleads(n, sock, room)
    ensures !Agree(n.(server := Join(n.server, sock, room)))
  {
    var s, peer := n.server, n.server.names[sock];
    var after := n.(server := Join(s, sock, room));
    var m := Roster(true, peer, room, Members(s, room) + {peer});
    var r :| r in s.rooms && r != room && peer in s.rooms[r] && View(n, sock, r) != Some(s.rooms[r]);
    assert after.server.db[peer] == sock && peer in after.server.rooms[r];
    if sock in n.tables {
      ApplyAppend(n.tables[sock], s.queues[sock], m);
    }
    assert View(after, sock, r) == View(n, sock, r);
  }

  /** Pongs and relayed file messages do not touch anyone's idea of a room. */
  lemma SendAgrees(n: Net, to: Socket, m: Message)
    requires Agree(n) && !m.Roster?
    ensures Agree(n.(server := Send(n.server, to, m)))
  {
    var after := n.(server := Send(n.server, to, m));
    forall sock, r ensures View(after, sock, r) == View(n, sock, r) {
      if sock == to && sock in n.tables && sock in n.server.queues {
        ApplyAppend(n.tables[sock], n.server.queues[sock], m);
      }
    }
  }

  lemma HandleAgrees(n: Net, sock: Socket, doc: Doc)
    requires Agree(n) && sock in n.server.names
    ensures Agree(n.(server := HandleDoc(n.server, sock, doc)))
  {
    var s := n.server;
    if Complete(doc) {
      var looked := if doc.kind.FileComplete? || doc.kind.Offer? then s else Touch(s, doc.room.value);
      var mid := n.(server := looked);
      assert forall k, r :: View(mid, k, r) == View(n, k, r);
      assert Agree(mid);
      if Relayed(s, sock, doc) {
        SendAgrees(mid, s.db[doc.peer.value], Relay(doc.(peer := Some(s.names[sock]))));
      }
    }
  }

  /** No other event spoils agreement, whether names are shared or not. */
  lemma StepAgrees(n: Net, e: Event)
    requires Agree(n) && Live(n.server) && n.server.names.Keys <= n.tables.Keys
    requires e.Joined? ==> !Misleads(n, e.sock, e.room)
    ensures Agree(Step(n, e))
  {
    if Enabled(n, e) {
      match e
      case Opened(sock, name) =>
        var after := Step(n, e);
        forall k, r | k != sock ensures View(after, k, r) == View(n, k, r) {}
      case Joined(sock, room) => JoinAgrees(n, sock, room);
      case Left(sock, room) => LeaveRoomAgrees(n, n.server.names[sock], room, None);
      case Closed(sock, order) => CloseAgrees(n, sock, order);
      case Sent(sock, doc) => HandleAgrees(n, sock, doc);
      case Pinged(sock) => SendAgrees(n, sock, Pong(n.server.names[sock]));
      case Delivered(sock) =>
        var after := Step(n, e);
        forall k, r ensures View(after, k, r) == View(n, k, r) {}
      case Lost(sock) =>
        var after := Step(n, e);
        forall k, r | k != sock ensures View(after, k, r) == View(n, k, r) {}
    }
  }

  /** One event keeps agreement if and only if it is no misleading join. */
  lemma StepAgreesExactly(n: Net, e: Event)
    requires Agree(n) && Live(n.server) && n.server.names.Keys <= n.tables.Keys
    ensures Agree(Step(n, e)) <==> !(e.Joined? && Misleads(n, e.sock, e.room))
  {
    if e.Joined? && Misleads(n, e.sock, e.room) {
      JoinDisagrees(n, e.sock, e.room);
    } else {
      StepAgrees(n, e);
    }
  }

  /** The joins that the server's own tables show to be safe. */
  ghost predicate SafeJoin(s: State, sock: Socket, room: Room) {
    sock in s.names ==>
      var name := s.names[sock];
      || name in Members(s, room)
      || (name in s.db && s.db[name] == sock)
      || forall r | r in s.rooms :: name !in s.rooms[r]
  }

  lemma SafeJoinAgrees(n: Net, sock: Socket, room: Room)
    requires Agree(n) && SafeJoin(n.server, sock, room)
    ensures !Misleads(n, sock, room)
  {
    if sock in n.server.names {
      var name := n.server.names[sock];
      forall r | r in n.server.rooms && name in n.server.rooms[r] && name in n.server.db && n.server.db[name] == sock
                 && sock !in n.down
        ensures View(n, sock, r) == Some(n.server.rooms[r])
      {
        assert View(n, n.server.db[name], r) == Some(n.server.rooms[r]);
      }
    }
  }

  /** While no other open socket has its name, a socket's joins are all safe. */
  lemma UniqueJoinsAreSafe(s: State, sock: Socket, room: Room)
    requires Live(s) && forall k | k in s.names && sock in s.names && s.names[k] == s.names[sock] :: k == sock
    ensures SafeJoin(s, sock, room)
  {}

  /**
   * In every run, sockets of one name or not, in which each join is of a room the name is already in, or comes from the
   * socket the name leads to, or finds the name in no room: every connected member's last undelivered roster of a room,
   * or its own table when none is under way, is the server's member set.
   */
  lemma {:induction false} RosterAgreement(events: seq<Event>)
    requires forall k | 0 <= k < |events| && events[k].Joined? ::
               SafeJoin(Run(events[..k]).server, events[k].sock, events[k].room)
    ensures Agree(Run(events))
  {
    if events != [] {
      var k := |events| - 1;
      assert forall j | 0 <= j < k :: events[..k][..j] == events[..j] && events[..k][j] == events[j];
      RosterAgreement(events[..k]);
      MembersHaveLiveSockets(events[..k]);
      if events[k].Joined? {
        SafeJoinAgrees(Run(events[..k]), events[k].sock, events[k].room);
      }
      StepAgrees(Run(events[..k]), events[k]);
    }
  }

  /** Agreement after every prefix of the run. */
  ghost predicate AgreesThroughout(events: seq<Event>) {
    Agree(Run(events)) && (events != [] ==> AgreesThroughout(events[..|events| - 1]))
  }

  ghost predicate NoneMisleads(events: seq<Event>) {
    events != [] ==>
      var before, e := events[..|events| - 1], events[|events| - 1];
      NoneMisleads(before) && !(e.Joined? && Misleads(Run(before), e.sock, e.room))
  }

  /** Agreement holds throughout a run if and only if no join of the run misleads. */
  lemma {:induction false} RosterAgreementExactly(events: seq<Event>)
    ensures AgreesThroughout(events) <==> NoneMisleads(events)
  {
    if events != [] {
      var before, e := events[..|events| - 1], events[|events| - 1];
      RosterAgreementExactly(before);
      MembersHaveLiveSockets(before);
      if AgreesThroughout(before) {
        StepAgreesExactly(Run(before), e);
      }
    }
  }

  /**
   * Such a run: a client that is in a room loses its connection, connects again before the server has dropped the old
   * socket, and joins another room first.
   */
  lemma ReconnectDisagrees(name: Name, room: Room, other: Room, first: Socket, second: Socket)
    requires room != other && first != second
    ensures !Agree(Run([Opened(first, name), Joined(first, room), Lost(first), Opened(second, name),
                        Joined(second, other)]))
  {
    var e1, e2, e3, e4 := Opened(first, name), Joined(first, room), Lost(first), Opened(second, name);
    var e5 := Joined(second, other);
    var n2, n3, n4 := Run([e1, e2]), Run([e1, e2, e3]), Run([e1, e2, e3, e4]);
    assert [] + [e1] == [e1] && [e1] + [e2] == [e1, e2] && [e1, e2] + [e3] == [e1, e2, e3];
    assert [e1, e2, e3] + [e4] == [e1, e2, e3, e4] && [e1, e2, e3, e4] + [e5] == [e1, e2, e3, e4, e5];
    RunOne([], e1);
    RunOne([e1], e2);
    RunOne([e1, e2], e3);
    RunOne([e1, e2, e3], e4);
    RunOne([e1, e2, e3, e4], e5);
    assert n2.server.names == map[first := name] && name in Members(n2.server, room) && n2.down == {};
    assert n3.server == n2.server && n3.down == {first};
    assert n4 == Step(n3, e4) && second !in n4.down;
    SharedNameDisagrees(n4, second, room, other);
  }

  lemma RunOne(events: seq<Event>, e: Event)
    ensures Run(events + [e]) == Step(Run(events), e)
  {
    assert (events + [e])[..|events|] == events;
  }

  /**
   * Whenever a second socket opens under the name of a room member and joins another room, the name now leads to a
   * client that has never been told about the first room.
   */
  lemma SharedNameDisagrees(n: Net, sock: Socket, room: Room, other: Room)
    requires sock in n.server.names && sock !in n.down
    requires sock in n.tables && n.tables[sock] == map[]
    requires sock in n.server.queues && n.server.queues[sock] == []
    requires n.server.names[sock] in Members(n.server, room) && n.server.names[sock] !in Members(n.server, other)
    ensures !Agree(Step(n, Joined(sock, other)))
  {
    var s, peer := n.server, n.server.names[sock];
    var after := Step(n, Joined(sock, other));
    var members := Members(s, other) + {peer};
    var m := Roster(true, peer, other, members);
    assert after.server.db[peer] == sock && peer in after.server.rooms[room];
    assert after.server.queues[sock] == [] + [m];
    ApplyAppend(map[], [], m);
    assert View(after, sock, room) == None;
  }
}
