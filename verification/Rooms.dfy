/**
 * The client's copy of the room table (src/WebRTC.cpp) and the rosters that replace its entries
 * (src/WebRTCClient.cpp).
 */
module Rooms {
  import opened Wrappers
  import opened Messages
  import opened Server
  import Rosters

  /** A roster as it arrives; a member is None when it is missing or of the wrong type. */
  datatype Notice = Notice(room: Option<Room>, who: Option<Name>, peers: Option<seq<Option<Name>>>)

  predicate WellFormed(n: Notice) {
    n.room.Some? && n.who.Some? && n.peers.Some? && None !in n.peers.value
  }

  /** The server's roster, its members in some order. */
  ghost predicate Carries(n: Notice, m: Message) {
    && m.Roster? && n.room == Some(m.room) && n.who == Some(m.who) && n.peers.Some?
    && forall p :: p in n.peers.value <==> p.Some? && p.value in m.peers
  }

  class RoomClient {
    const name: Name
    var rooms: Rosters.Table
    /** The room whose join the client is waiting for. */
    var awaited: Room
    var clientState: ClientState

    constructor (name: Name)
      ensures this.name == name && rooms == map[] && clientState == INIT
    {
      this.name := name;
      rooms, awaited, clientState := map[], "", INIT;
    }

    method Join(peer: Name, room: Room) returns (joined: bool)
      modifies `rooms
      ensures joined <==> !(room in old(rooms) && peer in old(rooms)[room])
      ensures rooms == old(rooms)[room := (if room in old(rooms) then old(rooms)[room] else {}) + {peer}]
    {
      var peers := if room in rooms then rooms[room] else {};
      joined := peer !in peers;
      rooms := rooms[room := peers + {peer}];
    }

    method Leave(peer: Name, room: Room) returns (left: bool)
      modifies `rooms
      ensures left <==> room in old(rooms) && peer in old(rooms)[room]
      ensures rooms == if left then old(rooms)[room := old(rooms)[room] - {peer}] else old(rooms)
    {
      if room !in rooms {
        return false;
      }
      if peer !in rooms[room] {
        return false;
      }
      rooms := rooms[room := rooms[room] - {peer}];
      left := true;
    }

    method UpdatePeers(room: Room, peers: set<Name>)
      modifies `rooms
      ensures rooms == old(rooms)[room := peers]
    {
      rooms := rooms[room := peers];
    }

    method ClearRooms()
      modifies `rooms
      ensures rooms == map[]
    {
      rooms := map[];
    }

    method GetPeers(room: Room) returns (peers: Option<set<Name>>)
      ensures peers == if room in rooms then Some(rooms[room]) else None
    {
      if room !in rooms {
        return None;
      }
      peers := Some(rooms[room]);
    }

    method InRoom(room: Room) returns (present: bool)
      ensures present <==> room in rooms && name in rooms[room]
    {
      var peers := GetPeers(room);
      present := peers.Some? && name in peers.value;
    }

    /** The set of the names, or nothing once one of them is not a string. */
    method Names(peers: seq<Option<Name>>) returns (names: Option<set<Name>>)
      ensures names.Some? <==> None !in peers
      ensures names.Some? ==> forall p :: p in names.value <==> Some(p) in peers
    {
      var found: set<Name> := {};
      for i := 0 to |peers|
        invariant None !in peers[..i]
        invariant forall p :: p in found <==> Some(p) in peers[..i]
      {
        if peers[i].None? {
          return None;
        }
        found := found + {peers[i].value};
      }
      assert peers[..|peers|] == peers;
      names := Some(found);
    }

    /** A complete notice replaces the room's entry; the client's own join, when awaited, is noticed as well. */
    method OnJoin(n: Notice)
      modifies this
      ensures awaited == old(awaited) && (!WellFormed(n) ==> rooms == old(rooms))
      ensures forall m :: Carries(n, m) ==> rooms == Rosters.Apply(old(rooms), m)
      ensures var mine := WellFormed(n) && n.room.value == awaited && n.who.value == name;
              clientState == if mine && old(clientState) == WAITING_FOR_JOIN then JOINED else old(clientState)
    {
      if n.room.None? || n.who.None? || n.peers.None? {
        return;
      }
      var peers := Names(n.peers.value);
      if peers.None? {
        return;
      }
      UpdatePeers(n.room.value, peers.value);
      forall m | Carries(n, m) ensures rooms == Rosters.Apply(old(rooms), m) {
        assert forall p :: p in peers.value <==> Some(p) in n.peers.value;
        assert peers.value == m.peers;
      }
      if clientState == WAITING_FOR_JOIN && n.room.value == awaited && n.who.value == name {
        clientState := JOINED;
      }
    }

    /**
     * The handler takes a list of peers for granted; if not all of it is names, the one who left is removed all the
     * same.
     */
    method OnLeave(n: Notice)
      requires n.peers.Some?
      modifies `rooms
      ensures forall m :: Carries(n, m) ==> rooms == Rosters.Apply(old(rooms), m)
      ensures n.room.None? || n.who.None? ==> rooms == old(rooms)
      ensures var told := n.room.Some? && n.who.Some?;
              told && None in n.peers.value && n.room.value in old(rooms) ==>
                n.room.value in rooms && rooms[n.room.value] == old(rooms)[n.room.value] - {n.who.value}
      ensures forall r | Some(r) != n.room ::
                (r in rooms <==> r in old(rooms)) && (r in rooms ==> rooms[r] == old(rooms)[r])
    {
      if n.room.None? || n.who.None? {
        return;
      }
      var _ := Leave(n.who.value, n.room.value);
      var peers := Names(n.peers.value);
      if peers.None? {
        return;
      }
      UpdatePeers(n.room.value, peers.value);
      forall m | Carries(n, m) ensures rooms == Rosters.Apply(old(rooms), m) {
        assert forall p :: p in peers.value <==> Some(p) in n.peers.value;
        assert peers.value == m.peers;
      }
    }

    /** Losing the connection forgets the rooms, unless the client is exiting. */
    method OnMessageClose()
      modifies `rooms, `clientState
      ensures rooms == if old(clientState) == EXIT then old(rooms) else map[]
      ensures clientState == if old(clientState) == EXIT then EXIT else INIT
    {
      if clientState != EXIT {
        clientState := INIT;
        ClearRooms();
      }
    }
  }
}
