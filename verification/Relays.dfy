/** Who a relayed file message comes from, and where its answer goes (src/WebRTCServer.cpp, src/WebRTCClient.cpp). */
module Relays {
  import opened Wrappers
  import opened Messages
  import opened Server
  import opened Rosters

  // ---- An offer and its answer ----

  lemma RelayLands(s: State, sock: Socket, doc: Doc)
    requires Live(s) && Relayed(s, sock, doc)
    ensures var to, after := s.db[doc.peer.value], HandleDoc(s, sock, doc);
            && to in s.names && s.names[to] == doc.peer.value
            && after.queues == s.queues[to := s.queues[to] + [Relay(doc.(peer := Some(s.names[sock])))]]
            && after.names == s.names && after.db == s.db
  {
    assert doc.peer.value in s.rooms[doc.room.value];
  }

  /**
   * A offers to B and B answers, at any two moments at which both are in the room: B reads A's name on the offer,
   * the answer goes to the one open socket that is A's, and it says B, the same uuid, room and file.
   */
  lemma AnswerReachesOfferer(s: State, t: State, a: Socket, b: Socket, offer: Doc, accept: bool)
    requires Live(s) && Live(t) && Unique(t) && Relayed(s, a, offer)
    requires offer.kind.FileOffer? && offer.uuid.Some?
    requires b in t.names && t.names[b] == offer.peer.value
    requires s.names[a] in Members(t, offer.room.value) && offer.peer.value in Members(t, offer.room.value)
    ensures var seen := offer.(peer := Some(s.names[a]));
            var answer := if accept then AcceptReply(seen) else RejectReply(seen);
            && s.db[offer.peer.value] in s.names && s.names[s.db[offer.peer.value]] == offer.peer.value
            && HandleDoc(s, a, offer).queues[s.db[offer.peer.value]] == s.queues[s.db[offer.peer.value]] + [Relay(seen)]
            && answer.Some? && Relayed(t, b, answer.value)
            && var to, got := t.db[s.names[a]], answer.value.(peer := Some(offer.peer.value));
               && (forall k | k in t.names :: t.names[k] == s.names[a] <==> k == to)
               && to in t.names
               && HandleDoc(t, b, answer.value).queues == t.queues[to := t.queues[to] + [Relay(got)]]
               && got == offer.(kind := if accept then FileAccept else FileReject)
  {
    RelayLands(s, a, offer);
    var seen := offer.(peer := Some(s.names[a]));
    var answer := (if accept then AcceptReply(seen) else RejectReply(seen)).value;
    assert s.names[a] in t.rooms[offer.room.value];
    RelayLands(t, b, answer);
  }

  /**
   * A complete file message is heard of by someone if and only if its sender and the client it is for are both in the
   * room it names: every room member's connection is open, so the table lookup never stands in its way.
   */
  lemma HeardExactly(s: State, sock: Socket, doc: Doc)
    requires Live(s) && sock in s.names
    ensures HandleDoc(s, sock, doc).queues != s.queues <==> Complete(doc) && BothInRoom(s, s.names[sock], doc)
  {
    if Complete(doc) && BothInRoom(s, s.names[sock], doc) {
      RelayLands(s, sock, doc);
      var to := s.db[doc.peer.value];
      assert |HandleDoc(s, sock, doc).queues[to]| == |s.queues[to]| + 1;
    }
  }

  // ---- Provenance over whole runs ----

  /** Someone sent this message for `name` in the run, under their own name, and both were then in its room. */
  ghost predicate Truthful(events: seq<Event>, name: Name, doc: Doc) {
    exists k | 0 <= k < |events| ::
      && events[k].Sent?
      && var s, from, sent := Run(events[..k]).server, events[k].sock, events[k].doc;
         && Relayed(s, from, sent)
         && sent.peer == Some(name)
         && doc == sent.(peer := Some(s.names[from]))
  }

  lemma {:induction false} LeaveAllQueues(s: State, peer: Name, order: seq<Room>, sock: Socket, doc: Doc)
    requires var after := LeaveAll(s, peer, order); sock in after.queues && Relay(doc) in after.queues[sock]
    ensures sock in s.queues && Relay(doc) in s.queues[sock]
  {
    if order != [] {
      LeaveAllQueues(s, peer, order[..|order| - 1], sock, doc);
    }
  }

  lemma StepQueues(n: Net, e: Event, sock: Socket, doc: Doc)
    requires Live(n.server) && n.server.names.Keys <= n.tables.Keys
    requires var s := Step(n, e).server; sock in s.queues && Relay(doc) in s.queues[sock]
    ensures sock in n.server.names && sock in n.server.queues && sock in Step(n, e).server.names
    ensures Step(n, e).server.names[sock] == n.server.names[sock]
    ensures Relay(doc) in n.server.queues[sock] ||
            (e.Sent? && Relayed(n.server, e.sock, e.doc) && sock == n.server.db[e.doc.peer.value] &&
             doc == e.doc.(peer := Some(n.server.names[e.sock])))
  {
    StepLive(n, e);
    if Enabled(n, e) {
      match e
      case Closed(k, order) =>
        LeaveAllQueues(Disconnect(n.server, k), n.server.names[k], order, sock, doc);
        CloseNames(n.server, k, order);
      case _ =>
    }
  }

  /**
   * In every reachable state, each file message waiting on a connection was sent by the client it names, for the
   * client whose connection it is, at a moment at which both were in the message's room.
   */
  lemma {:induction false} RelaysAreTruthful(events: seq<Event>, sock: Socket, doc: Doc)
    requires sock in Run(events).server.queues && Relay(doc) in Run(events).server.queues[sock]
    ensures sock in Run(events).server.names && Truthful(events, Run(events).server.names[sock], doc)
  {
    MembersHaveLiveSockets(events);
    if events != [] {
      var k := |events| - 1;
      var before := events[..k];
      var n, e := Run(before), events[k];
      MembersHaveLiveSockets(before);
      StepQueues(n, e, sock, doc);
      if Relay(doc) in n.server.queues[sock] {
        RelaysAreTruthful(before, sock, doc);
        var j :| 0 <= j < |before| && before[j].Sent? &&
                 var s, from, sent := Run(before[..j]).server, before[j].sock, before[j].doc;
                 Relayed(s, from, sent) && sent.peer == Some(n.server.names[sock]) &&
                 doc == sent.(peer := Some(s.names[from]));
        assert events[..j] == before[..j] && events[j] == before[j];
      } else {
        RelayLands(n.server, e.sock, e.doc);
      }
    }
  }
}
