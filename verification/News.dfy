/** What a join, a leave and a close tell whom (src/WebRTCServer.cpp), and what the clients make of it. */
module News {
  import opened Wrappers
  import opened Messages
  import opened Server
  import Rosters
  import W = Worker

  /** The connection k is the one that the server's table holds for a member of the room. */
  ghost predicate Hears(s: State, k: Socket, room: Room) {
    k in s.names && s.names[k] in Members(s, room) && s.names[k] in s.db && s.db[s.names[k]] == k
  }

  lemma BroadcastHeard(s: State, room: Room, m: Message, leaving: Option<Name>, k: Socket)
    requires LiveBut(s, leaving) && room in s.rooms && k in s.queues
    requires leaving.Some? ==> leaving.value !in s.rooms[room]
    ensures Broadcast(s, s.rooms[room], m).queues[k] == s.queues[k] + if Hears(s, k, room) then [m] else []
  {
    assert Hears(s, k, room) ==> k in Targets(s, s.rooms[room]);
    assert k in Targets(s, s.rooms[room]) ==> Hears(s, k, room);
    Assoc(s.queues[k], [], []);
  }

  /**
   * A first join is announced, as a join by this name with the new member set, to the connection of every member of the
   * room and to nobody else.
   */
  lemma JoinIsHeard(s: State, sock: Socket, room: Room, k: Socket)
    requires Live(s) && sock in s.names && s.names[sock] !in Members(s, room) && k in s.queues
    ensures var after, name := Join(s, sock, room), s.names[sock];
            var m := Roster(true, name, room, Members(s, room) + {name});
            && Members(after, room) == Members(s, room) + {name} && Hears(after, sock, room)
            && after.queues[k] == s.queues[k] + if Hears(after, k, room) then [m] else []
  {
    var name := s.names[sock];
    var members := Members(s, room) + {name};
    var mid := s.(rooms := s.rooms[room := members], db := s.db[name := sock]);
    BroadcastHeard(mid, room, Roster(true, name, room, members), None, k);
  }

  /** So the last thing the joiner is told is what ends its wait. */
  lemma JoinerStopsWaiting(s: State, sock: Socket, room: Room)
    requires Live(s) && sock in s.names && s.names[sock] !in Members(s, room)
    ensures var told := Join(s, sock, room).queues[sock];
            told != [] && var m := told[|told| - 1];
            && m.Roster? && s.names[sock] in m.peers
            && W.After(WAITING_FOR_JOIN, W.RosterArrived(m.room, m.who, m.peers, m.joined), s.names[sock], room) ==
               JOINED
  {
    JoinIsHeard(s, sock, room, sock);
  }

  /** A repeated join tells nobody anything. */
  lemma RepeatedJoinSilent(s: State, sock: Socket, room: Room)
    requires sock in s.names && s.names[sock] in Members(s, room)
    ensures Join(s, sock, room).queues == s.queues
  {}

  /**
   * A leave is announced, as a departure of this name with the members left, to the connection of every member left and
   * to nobody else, whether or not the name was in the room.
   */
  lemma LeaveIsHeard(s: State, peer: Name, room: Room, leaving: Option<Name>, k: Socket)
    requires LiveBut(s, leaving) && (leaving.None? || leaving == Some(peer)) && k in s.queues
    ensures var after := LeaveRoom(s, peer, room);
            var m := Roster(false, peer, room, Members(s, room) - {peer});
            && Members(after, room) == Members(s, room) - {peer}
            && after.queues[k] == s.queues[k] + if Hears(after, k, room) then [m] else []
  {
    var members := Members(s, room) - {peer};
    BroadcastHeard(s.(rooms := s.rooms[room := members]), room, Roster(false, peer, room, members), leaving, k);
  }

  /** A leave is no join: it ends nobody's wait. */
  lemma LeaveEndsNoWait(s: State, peer: Name, room: Room, name: Name, awaited: Room)
    ensures W.After(WAITING_FOR_JOIN, W.RosterArrived(room, peer, Members(s, room) - {peer}, false), name, awaited) ==
            WAITING_FOR_JOIN
  {}

  lemma {:induction false} LeaveAllIsHeard(s: State, peer: Name, order: seq<Room>, room: Room, k: Socket)
    requires LiveBut(s, Some(peer)) && k in s.queues
    requires forall i, j | 0 <= i < j < |order| :: order[i] != order[j]
    ensures var after := LeaveAll(s, peer, order);
            && k in after.queues && s.queues[k] <= after.queues[k]
            && (room in order && Hears(after, k, room) ==>
                  Roster(false, peer, room, Members(s, room) - {peer}) in after.queues[k])
  {
    if order != [] {
      var n := |order| - 1;
      var before := order[..n];
      var mid := LeaveAll(s, peer, before);
      LeaveAllIsHeard(s, peer, before, room, k);
      LeaveAllLive(s, peer, before);
      Rosters.LeaveAllNames(s, peer, before);
      LeaveIsHeard(mid, peer, order[n], Some(peer), k);
      Rosters.LeaveAllNames(s, peer, order);
      assert order == before + [order[n]];
      if room in order && Hears(LeaveAll(s, peer, order), k, room) && room != order[n] {
        assert Members(LeaveAll(s, peer, order), room) == Members(mid, room);
      }
    }
  }

  /** A closed connection is announced as a departure from each of its rooms to every member left there. */
  lemma CloseIsHeard(s: State, sock: Socket, order: seq<Room>, room: Room, k: Socket)
    requires Live(s) && sock in s.names && RoomsOf(s, s.names[sock], order) && k in s.queues && k != sock
    requires s.names[sock] in Members(s, room) && Hears(Close(s, sock, order), k, room)
    ensures var name := s.names[sock];
            && Members(Close(s, sock, order), room) == Members(s, room) - {name}
            && k in Close(s, sock, order).queues
            && Roster(false, name, room, Members(s, room) - {name}) in Close(s, sock, order).queues[k]
  {
    var name, gone := s.names[sock], Disconnect(s, sock);
    assert LiveBut(gone, Some(name));
    assert Members(gone, room) == Members(s, room) && room in order;
    LeaveAllLive(gone, name, order);
    LeaveAllIsHeard(gone, name, order, room, k);
  }

  /** Relaying a file message changes nobody's membership; it may create the empty room that a message names. */
  lemma RelayKeepsMembers(s: State, sock: Socket, doc: Doc, room: Room)
    requires sock in s.names
    ensures var after := HandleDoc(s, sock, doc);
            && Members(after, room) == Members(s, room) && after.db == s.db && after.names == s.names
            && (room in after.rooms <==>
                  || room in s.rooms
                  || (Complete(doc) && !doc.kind.FileComplete? && !doc.kind.Offer? && doc.room == Some(room)))
  {}
}
