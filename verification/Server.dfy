/**
 * The signalling server's room table, the rosters it broadcasts and the file messages it relays
 * (src/WebRTCServer.cpp, src/WebRTC.cpp). Several sockets may be open under one client name.
 */
module Server {
  import opened Wrappers
  import opened Messages

  type Socket = nat
  type Name = string
  type Room = string

  datatype Message =
    | Roster(joined: bool, who: Name, room: Room, peers: set<Name>)
    | Relay(doc: Doc)
    | Pong(id: Name)

  /** names: the open sockets and the client each says it is; queues: what was sent to a socket, oldest first. */
  datatype State = State(
    rooms: map<Room, set<Name>>, db: map<Name, Socket>, names: map<Socket, Name>, queues: map<Socket, seq<Message>>)

  const START := State(map[], map[], map[], map[])

  function Members(s: State, room: Room): set<Name> {
    if room in s.rooms then s.rooms[room] else {}
  }

  /** Looking a room up by index creates it. */
  function Touch(s: State, room: Room): State {
    s.(rooms := s.rooms[room := Members(s, room)])
  }

  function Targets(s: State, members: set<Name>): set<Socket> {
    set u | u in members && u in s.db :: s.db[u]
  }

  function Broadcast(s: State, members: set<Name>, m: Message): State {
    s.(queues := map k | k in s.queues :: if k in Targets(s, members) then s.queues[k] + [m] else s.queues[k])
  }

  function Send(s: State, to: Socket, m: Message): State {
    if to in s.queues then s.(queues := s.queues[to := s.queues[to] + [m]]) else s
  }

  // ---- The handlers ----

  function Open(s: State, sock: Socket, name: Name): State {
    s.(names := s.names[sock := name], queues := s.queues[sock := []])
  }

  function Join(s: State, sock: Socket, room: Room): State
    requires sock in s.names
  {
    var peer := s.names[sock];
    var members := Members(s, room) + {peer};
    if peer in Members(s, room) then s
    else Broadcast(s.(rooms := s.rooms[room := members], db := s.db[peer := sock]), members,
                   Roster(true, peer, room, members))
  }

  /** Removes the peer if it is there; the members left are told either way. */
  function LeaveRoom(s: State, peer: Name, room: Room): State {
    var members := Members(s, room) - {peer};
    Broadcast(s.(rooms := s.rooms[room := members]), members, Roster(false, peer, room, members))
  }

  function LeaveAll(s: State, peer: Name, order: seq<Room>): State {
    if order == [] then s else LeaveRoom(LeaveAll(s, peer, order[..|order| - 1]), peer, order[|order| - 1])
  }

  /** The order in which the close handler meets the rooms that the peer is in. */
  ghost predicate RoomsOf(s: State, peer: Name, order: seq<Room>) {
    && (forall i, j | 0 <= i < j < |order| :: order[i] != order[j])
    && forall r :: r in order <==> peer in Members(s, r)
  }

  function Disconnect(s: State, sock: Socket): State {
    s.(names := s.names - {sock}, queues := s.queues - {sock})
  }

  function Close(s: State, sock: Socket, order: seq<Room>): State
    requires sock in s.names
  {
    LeaveAll(Disconnect(s, sock), s.names[sock], order)
  }

  predicate Complete(doc: Doc) {
    doc.peer.Some? && doc.room.Some? && (doc.kind.FileComplete? || doc.kind.Offer? || doc.file.Some?)
  }

  /** Sender and addressee are both in the room named by the message. */
  predicate BothInRoom(s: State, from: Name, doc: Doc)
    requires Complete(doc)
  {
    from in Members(s, doc.room.value) && doc.peer.value in Members(s, doc.room.value)
  }

  predicate Relayed(s: State, sock: Socket, doc: Doc) {
    sock in s.names && Complete(doc) && BothInRoom(s, s.names[sock], doc) && doc.peer.value in s.db
  }

  /** File offers, accepts and rejects look the room up by index; completions and SDP offers search for it. */
  function HandleDoc(s: State, sock: Socket, doc: Doc): State
    requires sock in s.names
  {
    if !Complete(doc) then s else
    var looked := if doc.kind.FileComplete? || doc.kind.Offer? then s else Touch(s, doc.room.value);
    if Relayed(s, sock, doc)
    then Send(looked, s.db[doc.peer.value], Relay(doc.(peer := Some(s.names[sock]))))
    else looked
  }

  // ---- Every room member has a live socket of its own ----

  /** For every member but `leaving` the table leads to an open socket of that client. */
  ghost predicate LiveBut(s: State, leaving: Option<Name>) {
    && s.queues.Keys == s.names.Keys
    && forall r, p | r in s.rooms && p in s.rooms[r] && Some(p) != leaving ::
         p in s.db && s.db[p] in s.names && s.names[s.db[p]] == p
  }

  ghost predicate Live(s: State) {
    LiveBut(s, None)
  }

  lemma LeaveRoomLive(s: State, peer: Name, room: Room)
    requires LiveBut(s, Some(peer))
    ensures LiveBut(LeaveRoom(s, peer, room), Some(peer))
  {}

  lemma {:induction false} LeaveAllLive(s: State, peer: Name, order: seq<Room>)
    requires LiveBut(s, Some(peer))
    ensures LiveBut(LeaveAll(s, peer, order), Some(peer))
    ensures forall r :: Members(LeaveAll(s, peer, order), r) ==
                        if r in order then Members(s, r) - {peer} else Members(s, r)
  {
    if order != [] {
      var n := |order| - 1;
      LeaveAllLive(s, peer, order[..n]);
      LeaveRoomLive(LeaveAll(s, peer, order[..n]), peer, order[n]);
      assert order == order[..n] + [order[n]];
    }
  }

  lemma CloseLive(s: State, sock: Socket, order: seq<Room>)
    requires Live(s) && sock in s.names && RoomsOf(s, s.names[sock], order)
    ensures Live(Close(s, sock, order))
  {
    var peer, gone := s.names[sock], Disconnect(s, sock);
    assert LiveBut(gone, Some(peer));
    LeaveAllLive(gone, peer, order);
    var after := Close(s, sock, order);
    forall r, p | r in after.rooms && p in after.rooms[r]
      ensures p in after.db && after.db[p] in after.names && after.names[after.db[p]] == p
    {
      assert p in Members(after, r);
      assert Members(gone, r) == Members(s, r);
    }
  }

  // ---- The server ----

  lemma BroadcastOneMore(s: State, done: set<Name>, u: Name, m: Message, leaving: Option<Name>)
    requires LiveBut(s, leaving) && m.Roster? && m.room in s.rooms
    requires u in s.rooms[m.room] && u !in done && done <= s.rooms[m.room]
    requires leaving.Some? ==> leaving.value !in s.rooms[m.room]
    ensures u in s.db && s.db[u] in s.names
    ensures Send(Broadcast(s, done, m), s.db[u], m) == Broadcast(s, done + {u}, m)
  {}

  /**
   * The handlers over the server's tables. Writing to a socket that is not open is undefined for the transport,
   * so it is a precondition of the two notification methods; the handlers meet it in every live state.
   */
  class RoomServer {
    var rooms: map<Room, set<Name>>
    var clientDB: map<Name, Socket>
    var names: map<Socket, Name>
    var queues: map<Socket, seq<Message>>

    function Now(): State
      reads this
    {
      State(rooms, clientDB, names, queues)
    }

    constructor ()
      ensures Now() == START
    {
      rooms, clientDB, names, queues := map[], map[], map[], map[];
    }

    method OnMessageOpen(sock: Socket, name: Name)
      requires Live(Now()) && sock !in names
      modifies this
      ensures Live(Now()) && Now() == Open(old(Now()), sock, name)
    {
      names, queues := names[sock := name], queues[sock := []];
    }

    /** A name that the table does not know is passed over. */
    method SendJoinNotification(whoToNotify: Name, whoJoined: Name, room: Room, peers: set<Name>)
      requires whoToNotify in clientDB ==> clientDB[whoToNotify] in queues
      modifies `queues
      ensures Now() == if whoToNotify in clientDB
                       then Send(old(Now()), clientDB[whoToNotify], Roster(true, whoJoined, room, peers))
                       else old(Now())
    {
      if whoToNotify !in clientDB {
        return;
      }
      var sock := clientDB[whoToNotify];
      queues := queues[sock := queues[sock] + [Roster(true, whoJoined, room, peers)]];
    }

    /** A name that the table does not know is passed over. */
    method SendLeaveNotification(whoToNotify: Name, whoLeft: Name, room: Room, peers: set<Name>)
      requires whoToNotify in clientDB ==> clientDB[whoToNotify] in queues
      modifies `queues
      ensures Now() == if whoToNotify in clientDB
                       then Send(old(Now()), clientDB[whoToNotify], Roster(false, whoLeft, room, peers)) else old(Now())
    {
      if whoToNotify !in clientDB {
        return;
      }
      var sock := clientDB[whoToNotify];
      queues := queues[sock := queues[sock] + [Roster(false, whoLeft, room, peers)]];
    }

    method OnJoin(sock: Socket, room: Option<Room>)
      requires Live(Now()) && sock in names
      modifies this
      ensures Live(Now()) && Now() == if room.None? then old(Now()) else Join(old(Now()), sock, room.value)
    {
      if room.None? {
        return;
      }
      var peer := names[sock];
      var members := if room.value in rooms then rooms[room.value] else {};
      if peer in members {
        return;
      }
      members := members + {peer};
      rooms := rooms[room.value := members];
      clientDB := clientDB[peer := sock];
      NotifyJoined(peer, room.value, members);
    }

    /** One more member is told; `done` are those told already. */
    method TellJoined(u: Name, whoJoined: Name, room: Room, members: set<Name>, ghost before: State,
                      ghost done: set<Name>)
      requires Live(before) && room in before.rooms && before.rooms[room] == members
      requires u in members && u !in done && done <= members
      requires Now() == Broadcast(before, done, Roster(true, whoJoined, room, members))
      modifies `queues
      ensures Now() == Broadcast(before, done + {u}, Roster(true, whoJoined, room, members))
    {
      BroadcastOneMore(before, done, u, Roster(true, whoJoined, room, members), None);
      SendJoinNotification(u, whoJoined, room, members);
    }

    method NotifyJoined(whoJoined: Name, room: Room, members: set<Name>)
      requires Live(Now()) && room in rooms && rooms[room] == members
      modifies `queues
      ensures Now() == Broadcast(old(Now()), members, Roster(true, whoJoined, room, members))
    {
      ghost var joined, m := Now(), Roster(true, whoJoined, room, members);
      var todo := members;
      assert queues == Broadcast(joined, {}, m).queues;
      while todo != {}
        invariant todo <= members && Now() == Broadcast(joined, members - todo, m)
        decreases todo
      {
        var u :| u in todo;
        TellJoined(u, whoJoined, room, members, joined, members - todo);
        assert members - todo + {u} == members - (todo - {u});
        todo := todo - {u};
      }
      assert members - todo == members;
    }

    /** One more member is told; `done` are those told already. */
    method TellLeft(u: Name, whoLeft: Name, room: Room, members: set<Name>, ghost before: State,
                    ghost done: set<Name>, ghost leaving: Option<Name>)
      requires LiveBut(before, leaving) && room in before.rooms && before.rooms[room] == members
      requires leaving.Some? ==> leaving.value !in members
      requires u in members && u !in done && done <= members
      requires Now() == Broadcast(before, done, Roster(false, whoLeft, room, members))
      modifies `queues
      ensures Now() == Broadcast(before, done + {u}, Roster(false, whoLeft, room, members))
    {
      BroadcastOneMore(before, done, u, Roster(false, whoLeft, room, members), leaving);
      SendLeaveNotification(u, whoLeft, room, members);
    }

    method NotifyLeft(whoLeft: Name, room: Room, members: set<Name>, ghost leaving: Option<Name>)
      requires LiveBut(Now(), leaving) && room in rooms && rooms[room] == members
      requires leaving.Some? ==> leaving.value !in members
      modifies `queues
      ensures Now() == Broadcast(old(Now()), members, Roster(false, whoLeft, room, members))
    {
      ghost var left, m := Now(), Roster(false, whoLeft, room, members);
      var todo := members;
      assert queues == Broadcast(left, {}, m).queues;
      while todo != {}
        invariant todo <= members && Now() == Broadcast(left, members - todo, m)
        decreases todo
      {
        var u :| u in todo;
        TellLeft(u, whoLeft, room, members, left, members - todo, leaving);
        assert members - todo + {u} == members - (todo - {u});
        todo := todo - {u};
      }
      assert members - todo == members;
    }

    method Leave(peer: Name, room: Room, ghost leaving: Option<Name>)
      requires LiveBut(Now(), leaving) && (leaving.None? || leaving == Some(peer))
      modifies `rooms, `queues
      ensures LiveBut(Now(), leaving) && Now() == LeaveRoom(old(Now()), peer, room)
    {
      var members := if room in rooms then rooms[room] - {peer} else {};
      assert members == Members(Now(), room) - {peer};
      rooms := rooms[room := members];
      NotifyLeft(peer, room, members, leaving);
    }

    method OnLeave(sock: Socket, room: Option<Room>)
      requires Live(Now()) && sock in names
      modifies `rooms, `queues
      ensures Live(Now()) && Now() == if room.None? then old(Now()) else LeaveRoom(old(Now()), names[sock], room.value)
    {
      if room.Some? {
        Leave(names[sock], room.value, None);
      }
    }

    /** Runs after the transport has closed the socket; the rooms are met in some order. */
    method OnMessageClose(sock: Socket) returns (ghost order: seq<Room>)
      requires Live(Now()) && sock in names
      modifies this
      ensures RoomsOf(old(Now()), old(names)[sock], order)
      ensures Live(Now()) && Now() == Close(old(Now()), sock, order)
    {
      var peer := names[sock];
      ghost var before := Now();
      names, queues := names - {sock}, queues - {sock};
      ghost var gone := Now();
      order := [];
      var todo := rooms.Keys;
      assert LiveBut(gone, Some(peer));
      while todo != {}
        invariant todo <= before.rooms.Keys
        invariant Now() == LeaveAll(gone, peer, order) && LiveBut(Now(), Some(peer))
        invariant forall i, j | 0 <= i < j < |order| :: order[i] != order[j]
        invariant forall r :: r in order <==> r in before.rooms && r !in todo && peer in before.rooms[r]
        invariant forall r | r in todo :: r in rooms && rooms[r] == before.rooms[r]
        decreases todo
      {
        var room :| room in todo;
        todo := todo - {room};
        if peer in rooms[room] {
          Leave(peer, room, Some(peer));
          assert (order + [room])[..|order|] == order;
          order := order + [room];
        }
      }
      CloseLive(before, sock, order);
    }

    /** File offers, accepts and rejects. */
    method HandleFile(sock: Socket, doc: Doc) returns (ok: bool)
      requires Live(Now()) && sock in names && !doc.kind.FileComplete? && !doc.kind.Offer?
      modifies `rooms, `queues
      ensures Live(Now()) && Now() == HandleDoc(old(Now()), sock, doc) && ok == Relayed(old(Now()), sock, doc)
    {
      if doc.room.None? || doc.peer.None? || doc.file.None? {
        return false;
      }
      var fromId, peerId, room := names[sock], doc.peer.value, doc.room.value;
      if room !in rooms {
        rooms := rooms[room := {}];
      }
      if fromId !in rooms[room] || peerId !in rooms[room] {
        return false;
      }
      if peerId !in clientDB {
        return false;
      }
      var toWs := clientDB[peerId];
      queues := queues[toWs := queues[toWs] + [Relay(doc.(peer := Some(fromId)))]];
      ok := true;
    }

    /** Completions and SDP offers do not create the room they name. */
    method Forward(sock: Socket, doc: Doc)
      requires Live(Now()) && sock in names && (doc.kind.FileComplete? || doc.kind.Offer?)
      modifies `queues
      ensures Live(Now()) && Now() == HandleDoc(old(Now()), sock, doc)
    {
      if doc.room.None? || doc.peer.None? || doc.room.value !in rooms {
        return;
      }
      var from, peer, members := names[sock], doc.peer.value, rooms[doc.room.value];
      if from !in members || peer !in members || peer !in clientDB {
        return;
      }
      var recipient := clientDB[peer];
      queues := queues[recipient := queues[recipient] + [Relay(doc.(peer := Some(from)))]];
    }
  }
}
