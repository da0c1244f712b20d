/**
 * The client's own thread joins rooms, waits for peers, opens channels and offers files (src/WebRTCClient.cpp). What it
 * does not decide itself, what other threads do meanwhile included, is given to it in advance.
 */
module Offering {
  import opened Wrappers
  import opened Messages
  import opened Receiver
  import opened Specs
  import opened Worker
  import Rosters

  /** What the thread looks at, shared with the others. */
  datatype View = View(state: ClientState, awaited: Room, rooms: Rosters.Table, channels: set<Key>)

  /** A join: whether its request goes out, and what happens while the thread waits. */
  datatype Turn = Turn(sent: bool, incidents: seq<Incident>)

  /**
   * All that is not the thread's to decide about one entry: its join; what others do while it waits for the peer,
   * before it looks for the channel, and while it makes one; whether a description is obtained and the SDP offer goes
   * out; what others do while the file is read, and whether it can be; what they do after the look at the channel,
   * whether the file offer goes out, and what they do then.
   */
  datatype Chance = Chance(
    join: Turn, waiting: seq<Incident>, reaching: seq<Incident>, describing: seq<Incident>, described: bool,
    called: bool, inspecting: seq<Incident>, inspected: bool, looking: seq<Incident>, sent: bool, after: seq<Incident>)

  // ---- What other threads make of what the thread looks at ----

  function Took(v: View, e: Incident, name: Name): View {
    var cleared := e.TransportClosed? && v.state != EXIT;
    View(After(v.state, e, name, v.awaited), v.awaited,
         if cleared then map[] else if e.RosterArrived? then v.rooms[e.room := e.peers] else v.rooms,
         if cleared then {} else v.channels)
  }

  function TookAll(v: View, incidents: seq<Incident>, name: Name): View {
    if incidents == [] then v
    else Took(TookAll(v, incidents[..|incidents| - 1], name), incidents[|incidents| - 1], name)
  }

  lemma {:induction false} TookState(v: View, incidents: seq<Incident>, name: Name)
    ensures TookAll(v, incidents, name).state == AfterAll(v.state, incidents, name, v.awaited)
    ensures TookAll(v, incidents, name).awaited == v.awaited
  {
    if incidents != [] {
      TookState(v, incidents[..|incidents| - 1], name);
    }
  }

  /** The connection closes while the client, as the incidents before have left it, is not exiting. */
  ghost predicate ClosesAt(v: View, incidents: seq<Incident>, name: Name, i: nat) {
    i < |incidents| && incidents[i].TransportClosed? && AfterAll(v.state, incidents[..i], name, v.awaited) != EXIT
  }

  /** The channels are lost if and only if the connection closes on a client that is not exiting; else all are kept. */
  lemma {:induction false} ChannelsLostExactly(v: View, incidents: seq<Incident>, name: Name)
    ensures TookAll(v, incidents, name).channels ==
            if exists i: nat :: ClosesAt(v, incidents, name, i) then {} else v.channels
  {
    if incidents != [] {
      var n := |incidents| - 1;
      var before := incidents[..n];
      ChannelsLostExactly(v, before, name);
      TookState(v, before, name);
      forall i: nat | i < n ensures ClosesAt(v, incidents, name, i) <==> ClosesAt(v, before, name, i) {
        assert before[..i] == incidents[..i];
      }
      assert ClosesAt(v, incidents, name, n) <==>
             incidents[n].TransportClosed? && AfterAll(v.state, before, name, v.awaited) != EXIT;
      if i: nat :| ClosesAt(v, before, name, i) {
        assert ClosesAt(v, incidents, name, i);
      }
    }
  }

  predicate Present(v: View, key: Key) {
    key.room in v.rooms && key.peer in v.rooms[key.room]
  }

  // ---- What the thread makes of it ----

  function AfterJoin(v: View, room: Room, t: Turn, name: Name): View {
    var asked := v.(awaited := room, state := WAITING_FOR_JOIN);
    if !t.sent then asked.(state := EXIT) else
    var told := TookAll(asked, t.incidents, name);
    if told.state in {JOINED, INIT, EXIT} then told else told.(state := EXIT)
  }

  function AfterJoins(v: View, toJoin: seq<Room>, turns: seq<Turn>, name: Name): (View, bool)
    requires |turns| == |toJoin|
    decreases |toJoin|
  {
    if toJoin == [] then (v, true)
    else if v.state == EXIT then (v, false)
    else if toJoin[0] == "" || Present(v, Key(name, toJoin[0])) then AfterJoins(v, toJoin[1..], turns[1..], name)
    else
      var joined := AfterJoin(v, toJoin[0], turns[0], name);
      if Ended(joined.state) then (joined, false) else AfterJoins(joined, toJoin[1..], turns[1..], name)
  }

  /** Joining the entry's room and waiting for its peer, for a limited time. */
  function AfterAwaiting(v: View, spec: FileSpec, c: Chance, name: Name): (View, bool) {
    var (joined, ok) := AfterJoins(v, [spec.room], [c.join], name);
    if !ok then (joined, false) else
    var told := TookAll(joined, c.waiting, name);
    var waited := if Present(told, KeyOf(spec)) || Ended(told.state) then told else told.(state := EXIT);
    (waited, !Ended(waited.state))
  }

  /** Finding the channel or making it. */
  function AfterChannel(v: View, key: Key, c: Chance, name: Name): (View, bool) {
    var reached := TookAll(v, c.reaching, name);
    if key in reached.channels then (reached, true) else
    var described := TookAll(reached, c.describing, name);
    if c.described && c.called then (described.(channels := described.channels + {key}), true) else (described, false)
  }

  /** Making the offer. */
  function AfterOffer(v: View, key: Key, c: Chance, name: Name): (View, bool) {
    var read := TookAll(v, c.inspecting, name);
    if !c.inspected || key !in read.channels then (read, false) else
    var looked := TookAll(read, c.looking, name);
    (looked.(state := if c.sent then WAIT_FOR_FILE_ACCEPT else RUN), c.sent)
  }

  datatype Outcome = Outcome(view: View, ok: bool, offered: bool)

  function AfterEntry(v: View, spec: FileSpec, c: Chance, name: Name): Outcome {
    var (awaited, found) := AfterAwaiting(v, spec, c, name);
    if !found then Outcome(awaited, false, false) else
    var (reached, ready) := AfterChannel(awaited, KeyOf(spec), c, name);
    var (tried, offered) := if ready then AfterOffer(reached, KeyOf(spec), c, name) else (reached, false);
    var told := TookAll(tried, c.after, name);
    var done := if ready || Ended(told.state) then told else told.(state := EXIT);
    Outcome(done, !Ended(done.state), offered)
  }

  datatype Sum = Sum(view: View, ok: bool, marks: seq<bool>)

  /** The entries one after the other, up to the first that fails. */
  function AfterEntries(v: View, specs: seq<FileSpec>, chances: seq<Chance>, name: Name): (r: Sum)
    requires |chances| == |specs|
    ensures |r.marks| <= |specs| && (r.ok ==> |r.marks| == |specs|)
  {
    if specs == [] then Sum(v, true, []) else
    var n := |specs| - 1;
    var before := AfterEntries(v, specs[..n], chances[..n], name);
    if !before.ok then before else
    var last := AfterEntry(before.view, specs[n], chances[n], name);
    Sum(last.view, last.ok, before.marks + [last.offered])
  }

  // ---- When it comes to an offer ----

  /**
   * The entry is offered if and only if the wait for its peer succeeds, the channel is there or can be made, the file
   * can be read, the channel is still in the table at the last look, and the offer goes out.
   */
  lemma OfferedExactly(v: View, spec: FileSpec, c: Chance, name: Name)
    ensures var (awaited, found) := AfterAwaiting(v, spec, c, name);
            var (reached, ready) := AfterChannel(awaited, KeyOf(spec), c, name);
            AfterEntry(v, spec, c, name).offered <==>
            found && ready && c.inspected && c.sent && KeyOf(spec) in TookAll(reached, c.inspecting, name).channels
  {}

  /** Nothing happens that ends the client or costs it its tables. */
  ghost predicate Calm(incidents: seq<Incident>) {
    forall i | 0 <= i < |incidents| :: !incidents[i].TransportClosed? && !incidents[i].Stopped?
  }

  lemma {:induction false} CalmKeeps(v: View, incidents: seq<Incident>, name: Name)
    requires Calm(incidents)
    ensures var told := TookAll(v, incidents, name);
            && told.channels == v.channels && v.rooms.Keys <= told.rooms.Keys
            && (!Ended(v.state) ==> !Ended(told.state))
  {
    if incidents != [] {
      CalmKeeps(v, incidents[..|incidents| - 1], name);
    }
  }

  /** The last roster of the room to arrive while the thread waits, or else its table, shows the peer. */
  ghost predicate Arrives(v: View, key: Key, incidents: seq<Incident>) {
    if incidents == [] then Present(v, key) else
    var last := incidents[|incidents| - 1];
    if last.RosterArrived? && last.room == key.room then key.peer in last.peers
    else Arrives(v, key, incidents[..|incidents| - 1])
  }

  lemma {:induction false} ArrivesShows(v: View, key: Key, incidents: seq<Incident>, name: Name)
    requires Calm(incidents)
    ensures Present(TookAll(v, incidents, name), key) <==> Arrives(v, key, incidents)
  {
    if incidents != [] {
      ArrivesShows(v, key, incidents[..|incidents| - 1], name);
    }
  }

  /** The request goes out and what comes back includes the client's own join, and nothing that disturbs the wait. */
  ghost predicate Answered(t: Turn, name: Name, room: Room) {
    && t.sent && (exists i :: 0 <= i < |t.incidents| && OwnJoin(t.incidents[i], name, room))
    && (forall j | 0 <= j < |t.incidents| :: !Disturbs(t.incidents[j]))
  }

  lemma JoinedExactly(v: View, room: Room, t: Turn, name: Name)
    ensures !Ended(AfterJoin(v, room, t, name).state) <==> Answered(t, name, room)
    ensures Answered(t, name, room) ==> AfterJoin(v, room, t, name).state == JOINED
  {
    var asked := v.(awaited := room, state := WAITING_FOR_JOIN);
    TookState(asked, t.incidents, name);
    JoinNoticedExactly(t.incidents, name, room);
  }

  /** With every request answered, all rooms are joined. */
  lemma {:induction false} JoinsWhenAnswered(v: View, toJoin: seq<Room>, turns: seq<Turn>, name: Name)
    requires |turns| == |toJoin| && v.state != EXIT
    requires forall i | 0 <= i < |toJoin| :: toJoin[i] == "" || Answered(turns[i], name, toJoin[i])
    ensures var (after, ok) := AfterJoins(v, toJoin, turns, name);
            ok && after.state != EXIT && (after == v || after.state == JOINED)
    decreases |toJoin|
  {
    if toJoin != [] {
      JoinedExactly(v, toJoin[0], turns[0], name);
      var joined := AfterJoin(v, toJoin[0], turns[0], name);
      var next := if toJoin[0] == "" || Present(v, Key(name, toJoin[0])) then v else joined;
      assert forall i | 0 <= i < |toJoin[1..]| :: turns[1..][i] == turns[i + 1] && toJoin[1..][i] == toJoin[i + 1];
      JoinsWhenAnswered(next, toJoin[1..], turns[1..], name);
    }
  }

  /**
   * So an entry is offered whenever the client has not ended, its join is answered, its peer arrives, a channel can be
   * had, the file can be read and the offer goes out, as long as nothing ends the client or its connection meanwhile.
   */
  lemma OfferedWhenAllGoesWell(v: View, spec: FileSpec, c: Chance, name: Name)
    requires !Ended(v.state) && Answered(c.join, name, spec.room)
    requires Calm(c.join.incidents) && Calm(c.waiting) && Calm(c.reaching) && Calm(c.describing) && Calm(c.inspecting)
    requires Calm(c.looking) && Calm(c.after) && c.inspected && c.sent
    requires var (joined, ok) := AfterJoins(v, [spec.room], [c.join], name); Arrives(joined, KeyOf(spec), c.waiting)
    requires KeyOf(spec) in v.channels || (c.described && c.called)
    ensures AfterEntry(v, spec, c, name).offered && AfterEntry(v, spec, c, name).ok
  {
    var (joined, _) := AfterJoins(v, [spec.room], [c.join], name);
    JoinsWhenAnswered(v, [spec.room], [c.join], name);
    assert [spec.room][1..] == [] && [c.join][1..] == [];
    JoinKeepsChannels(v, spec.room, c.join, name);
    ArrivesShows(joined, KeyOf(spec), c.waiting, name);
    CalmKeeps(joined, c.waiting, name);
    var (awaited, found) := AfterAwaiting(v, spec, c, name);
    CalmKeeps(awaited, c.reaching, name);
    CalmKeeps(TookAll(awaited, c.reaching, name), c.describing, name);
    var (reached, ready) := AfterChannel(awaited, KeyOf(spec), c, name);
    CalmKeeps(reached, c.inspecting, name);
    var (tried, offered) := AfterOffer(reached, KeyOf(spec), c, name);
    CalmKeeps(tried, c.after, name);
  }

  /** Once its offer is out the client awaits the answer, until the first thing happens that ends such a wait. */
  lemma AwaitsAnswerExactly(v: View, spec: FileSpec, c: Chance, name: Name)
    requires AfterEntry(v, spec, c, name).offered
    ensures AfterEntry(v, spec, c, name).view.state == WAIT_FOR_FILE_ACCEPT <==>
            forall i | 0 <= i < |c.after| :: !EndsWait(WAIT_FOR_FILE_ACCEPT, c.after[i])
  {
    var (awaited, _) := AfterAwaiting(v, spec, c, name);
    var (reached, _) := AfterChannel(awaited, KeyOf(spec), c, name);
    var (tried, _) := AfterOffer(reached, KeyOf(spec), c, name);
    TookState(tried, c.after, name);
    WaitEndsExactly(WAIT_FOR_FILE_ACCEPT, c.after, name, tried.awaited);
  }

  lemma JoinKeepsChannels(v: View, room: Room, t: Turn, name: Name)
    requires Calm(t.incidents)
    ensures AfterJoin(v, room, t, name).channels == v.channels
  {
    CalmKeeps(v.(awaited := room, state := WAITING_FOR_JOIN), t.incidents, name);
  }

  ghost predicate NoneCloses(incidents: seq<Incident>) {
    forall i | 0 <= i < |incidents| :: !incidents[i].TransportClosed?
  }

  lemma {:induction false} StaysConnected(v: View, incidents: seq<Incident>, name: Name)
    requires v.state != INIT && NoneCloses(incidents)
    ensures TookAll(v, incidents, name).state != INIT
  {
    if incidents != [] {
      StaysConnected(v, incidents[..|incidents| - 1], name);
    }
  }

  /** A client whose connection is not closed meanwhile ends, rather than starting anew, when an entry fails. */
  lemma FailureIsExit(v: View, spec: FileSpec, c: Chance, name: Name)
    requires v.state != INIT && NoneCloses(c.join.incidents) && NoneCloses(c.waiting) && NoneCloses(c.reaching)
    requires NoneCloses(c.describing) && NoneCloses(c.inspecting) && NoneCloses(c.looking) && NoneCloses(c.after)
    requires !AfterEntry(v, spec, c, name).ok
    ensures AfterEntry(v, spec, c, name).view.state == EXIT
  {
    var (joined, _) := AfterJoins(v, [spec.room], [c.join], name);
    JoinStaysConnected(v, spec.room, c.join, name);
    StaysConnected(joined, c.waiting, name);
    var (awaited, found) := AfterAwaiting(v, spec, c, name);
    if found {
      AttemptStaysConnected(awaited, spec, c, name);
    }
  }

  lemma JoinStaysConnected(v: View, room: Room, t: Turn, name: Name)
    requires v.state != INIT && NoneCloses(t.incidents)
    ensures var (joined, ok) := AfterJoins(v, [room], [t], name); joined.state != INIT && (!ok ==> joined.state == EXIT)
  {
    var asked := v.(awaited := room, state := WAITING_FOR_JOIN);
    StaysConnected(asked, t.incidents, name);
    assert [room][1..] == [] && [t][1..] == [];
    var joined := AfterJoin(v, room, t, name);
    assert joined.state != INIT;
    assert AfterJoins(joined, [], [], name) == (joined, true) && AfterJoins(v, [], [], name) == (v, true);
  }

  lemma AttemptStaysConnected(v: View, spec: FileSpec, c: Chance, name: Name)
    requires v.state != INIT && NoneCloses(c.reaching) && NoneCloses(c.describing) && NoneCloses(c.inspecting)
    requires NoneCloses(c.looking) && NoneCloses(c.after)
    ensures var (reached, ready) := AfterChannel(v, KeyOf(spec), c, name);
            var (tried, _) := if ready then AfterOffer(reached, KeyOf(spec), c, name) else (reached, false);
            TookAll(tried, c.after, name).state != INIT
  {
    var (reached, ready) := AfterChannel(v, KeyOf(spec), c, name);
    StaysConnected(v, c.reaching, name);
    StaysConnected(TookAll(v, c.reaching, name), c.describing, name);
    StaysConnected(reached, c.inspecting, name);
    StaysConnected(TookAll(reached, c.inspecting, name), c.looking, name);
    var (tried, _) := if ready then AfterOffer(reached, KeyOf(spec), c, name) else (reached, false);
    StaysConnected(tried, c.after, name);
  }

  /** Every entry is marked exactly as its own turn says, and it has one only if those before it succeeded. */
  lemma {:induction false} MarksExactly(v: View, specs: seq<FileSpec>, chances: seq<Chance>, name: Name, i: nat)
    requires |chances| == |specs| && i < |AfterEntries(v, specs, chances, name).marks|
    ensures var before := AfterEntries(v, specs[..i], chances[..i], name);
            && before.ok
            && AfterEntries(v, specs, chances, name).marks[i] ==
               AfterEntry(before.view, specs[i], chances[i], name).offered
  {
    var n := |specs| - 1;
    var before := AfterEntries(v, specs[..n], chances[..n], name);
    if i < |before.marks| {
      Sliced(specs, i, n);
      Sliced(chances, i, n);
      MarksExactly(v, specs[..n], chances[..n], name, i);
      assert AfterEntries(v, specs, chances, name).marks[i] == before.marks[i];
    } else {
      assert before.ok && i == n;
    }
  }

  lemma Sliced<T>(s: seq<T>, i: nat, n: nat)
    requires i < n <= |s|
    ensures s[..n][..i] == s[..i] && s[..n][i] == s[i]
  {}

  lemma OneEntry(v: View, specs: seq<FileSpec>, chances: seq<Chance>, name: Name, i: nat)
    requires |chances| == |specs| && i < |specs| && AfterEntries(v, specs[..i], chances[..i], name).ok
    ensures var before := AfterEntries(v, specs[..i], chances[..i], name);
            var last := AfterEntry(before.view, specs[i], chances[i], name);
            AfterEntries(v, specs[..i + 1], chances[..i + 1], name) ==
            Sum(last.view, last.ok, before.marks + [last.offered])
  {
    assert specs[..i + 1][..i] == specs[..i] && chances[..i + 1][..i] == chances[..i];
  }

  lemma PickMore(specs: seq<FileSpec>, marks: seq<bool>, mark: bool)
    requires |marks| < |specs|
    ensures Pick(specs, marks + [mark]) == Pick(specs, marks) + if mark then [specs[|marks|]] else []
  {
    assert (marks + [mark])[..|marks|] == marks;
  }

  /** Once an entry has failed, nothing more is done. */
  lemma {:induction false} Stays(v: View, specs: seq<FileSpec>, chances: seq<Chance>, name: Name, k: nat)
    requires |chances| == |specs| && k <= |specs| && !AfterEntries(v, specs[..k], chances[..k], name).ok
    ensures AfterEntries(v, specs, chances, name) == AfterEntries(v, specs[..k], chances[..k], name)
  {
    if k < |specs| {
      var n := |specs| - 1;
      assert specs[..n][..k] == specs[..k] && chances[..n][..k] == chances[..k];
      Stays(v, specs[..n], chances[..n], name, k);
    } else {
      assert specs[..k] == specs && chances[..k] == chances;
    }
  }

  // ---- The thread ----

  class OfferingClient {
    const name: Name
    var clientState: ClientState
    var awaited: Room
    var rooms: Rosters.Table
    var channels: set<Key>
    ghost var trace: seq<Act>

    ghost predicate Valid()
      reads this
    {
      OffersInOrder(trace) && Explained(trace, rooms, channels)
    }

    ghost function Now(): View
      reads this
    {
      View(clientState, awaited, rooms, channels)
    }

    constructor (name: Name)
      ensures Valid() && trace == [] && Now() == View(INIT, "", map[], {}) && this.name == name
    {
      this.name := name;
      clientState, awaited, rooms, channels, trace := INIT, "", map[], {}, [];
    }

    /** Another thread handles one thing that happened. */
    method Handle(e: Incident)
      requires Valid()
      modifies `clientState, `rooms, `channels, `trace
      ensures Valid() && Now() == Took(old(Now()), e, name)
      ensures trace == old(trace) + Mark(old(clientState), e) && Offers(trace) == Offers(old(trace))
      ensures clientState == JOINED && old(clientState) != JOINED ==> Member(trace, name, awaited)
    {
      if e.RosterArrived? {
        var roster := RosterSeen(e.room, e.who, e.peers);
        ActInOrder(trace, roster);
        RosterExplained(trace, rooms, channels, roster);
        OneAct(trace, roster);
        rooms, trace := rooms[e.room := e.peers], trace + [roster];
        assert trace[|trace| - 1] == roster;
      } else if e.TransportClosed? && clientState != EXIT {
        ActInOrder(trace, ConnectionLost);
        OneAct(trace, ConnectionLost);
        channels, rooms, trace := {}, map[], trace + [ConnectionLost];
      }
      clientState := After(clientState, e, name, awaited);
    }

    /** While this thread waits or holds no lock, the incidents happen. */
    method Others(incidents: seq<Incident>)
      requires Valid()
      modifies `clientState, `rooms, `channels, `trace
      ensures Valid() && old(trace) <= trace && Offers(trace) == Offers(old(trace))
      ensures Now() == TookAll(old(Now()), incidents, name)
      ensures trace == old(trace) + Marks(old(clientState), incidents, name, awaited)
      ensures clientState == JOINED && old(clientState) != JOINED ==> Member(trace, name, awaited)
      ensures forall j | |old(trace)| <= j < |trace| :: ByOthers(trace[j])
    {
      ghost var start := Now();
      Assoc(trace, [], []);
      for i := 0 to |incidents|
        invariant Valid() && awaited == old(awaited) && Offers(trace) == Offers(old(trace))
        invariant Now() == TookAll(start, incidents[..i], name)
        invariant trace == old(trace) + Marks(start.state, incidents[..i], name, awaited)
        invariant clientState == JOINED && start.state != JOINED ==> Member(trace, name, awaited)
      {
        ghost var before, s, marks := trace, clientState, Marks(start.state, incidents[..i], name, awaited);
        TookState(start, incidents[..i], name);
        assert incidents[..i + 1][..i] == incidents[..i];
        Handle(incidents[i]);
        MemberLater(before, trace, name, awaited);
        Assoc(old(trace), marks, Mark(s, incidents[i]));
      }
      assert incidents[..|incidents|] == incidents;
      MarksAreByOthers(start.state, incidents, name, awaited);
    }

    method InRoom(room: Room) returns (present: bool)
      requires Valid()
      ensures present <==> Present(Now(), Key(name, room))
      ensures present ==> Member(trace, name, room)
    {
      present := room in rooms && name in rooms[room];
      if present {
        assert Shown(trace, |trace|, Key(name, room));
        ghost var i: nat :| Fresh(trace, i, |trace|) && Shows(trace[i], Key(name, room));
        assert Names(trace[i], name, room);
      }
    }

    ghost method Did(a: Act)
      requires Valid() && a != ConnectionLost
      requires a.PeerSeen? ==> Shown(trace, |trace|, a.key)
      requires a.ChannelSeen? ==> Called(trace, |trace|, a.key)
      requires a.FileOffered? ==> Prepared(trace, 0, |trace|, KeyOf(a.spec))
      modifies `trace
      ensures Valid() && trace == old(trace) + [a]
      ensures Offers(trace) == Offers(old(trace)) + if a.FileOffered? then [a.spec] else []
    {
      ActInOrder(trace, a);
      StillExplained(trace, rooms, channels, a);
      OneAct(trace, a);
      trace := trace + [a];
    }

    /** Asks to join and waits. The wait times out when it ends in any other state than JOINED, INIT and EXIT. */
    method AwaitJoin(room: Room, t: Turn) returns (ok: bool)
      requires Valid()
      modifies `clientState, `awaited, `rooms, `channels, `trace
      ensures Valid() && old(trace) <= trace && Offers(trace) == Offers(old(trace))
      ensures trace == old(trace) +
                if t.sent then [JoinSent(room)] + Marks(WAITING_FOR_JOIN, t.incidents, name, room) else []
      ensures Now() == AfterJoin(old(Now()), room, t, name)
      ensures if ok then Member(trace, name, room) else Ended(clientState)
      ensures ok <==> Answered(t, name, room)
    {
      JoinedExactly(Now(), room, t, name);
      awaited, clientState := room, WAITING_FOR_JOIN;
      if !t.sent {
        clientState := EXIT;
        Assoc(trace, [], []);
        return false;
      }
      Did(JoinSent(room));
      Others(t.incidents);
      Assoc(old(trace), [JoinSent(room)], Marks(WAITING_FOR_JOIN, t.incidents, name, room));
      if clientState !in {JOINED, INIT, EXIT} {
        clientState := EXIT;
        return false;
      }
      ok := !Ended(clientState);
    }

    /** On success the client has been shown in every room that has a name; failure comes with INIT or EXIT. */
    method JoinRooms(toJoin: seq<Room>, turns: seq<Turn>) returns (ok: bool)
      requires Valid() && |turns| == |toJoin|
      modifies `clientState, `awaited, `rooms, `channels, `trace
      ensures Valid() && old(trace) <= trace && Offers(trace) == Offers(old(trace))
      ensures (Now(), ok) == AfterJoins(old(Now()), toJoin, turns, name)
      ensures if ok then forall room | room in toJoin && room != "" :: Member(trace, name, room) else Ended(clientState)
    {
      ghost var whole := AfterJoins(Now(), toJoin, turns, name);
      assert toJoin[0..] == toJoin && turns[0..] == turns;
      for i := 0 to |toJoin|
        invariant Valid() && old(trace) <= trace && Offers(trace) == Offers(old(trace))
        invariant AfterJoins(Now(), toJoin[i..], turns[i..], name) == whole
        invariant forall j | 0 <= j < i && toJoin[j] != "" :: Member(trace, name, toJoin[j])
      {
        assert toJoin[i..][1..] == toJoin[i + 1..] && turns[i..][1..] == turns[i + 1..];
        if clientState == EXIT {
          return false;
        }
        var present := InRoom(toJoin[i]);
        if toJoin[i] == "" || present {
          continue;
        }
        ghost var before := trace;
        JoinedExactly(Now(), toJoin[i], turns[i], name);
        var joined := AwaitJoin(toJoin[i], turns[i]);
        if !joined {
          return false;
        }
        forall j | 0 <= j < i && toJoin[j] != "" ensures Member(trace, name, toJoin[j]) {
          MemberLater(before, trace, name, toJoin[j]);
        }
      }
      ok := true;
    }

    /** The channel is in the table only if its SDP offer was sent. */
    method MakeDataChannel(key: Key, c: Chance) returns (ok: bool)
      requires Valid()
      modifies `clientState, `rooms, `channels, `trace
      ensures Valid() && old(trace) <= trace && Offers(trace) == Offers(old(trace))
      ensures ok == (c.described && c.called)
      ensures var told := TookAll(old(Now()), c.describing, name);
              Now() == if ok then told.(channels := told.channels + {key}) else told
      ensures ok ==> Since(trace, |old(trace)|, SdpSent(key))
    {
      Others(c.describing);
      if !c.described || !c.called {
        return false;
      }
      CallExplained(trace, rooms, channels, key);
      ghost var before := trace;
      Did(SdpSent(key));
      assert trace[|before|] == SdpSent(key);
      channels := channels + {key};
      ok := true;
    }

    /** Uses the channel that is in the table, or makes one. */
    method UseChannel(key: Key, c: Chance) returns (ok: bool)
      requires Valid()
      modifies `clientState, `rooms, `channels, `trace
      ensures Valid() && old(trace) <= trace && Offers(trace) == Offers(old(trace))
      ensures (Now(), ok) == AfterChannel(old(Now()), key, c, name)
      ensures ok ==> Since(trace, |old(trace)|, ChannelSeen(key)) || Since(trace, |old(trace)|, SdpSent(key))
    {
      Others(c.reaching);
      ok := SeeChannel(key);
      if ok {
        assert trace[|trace| - 1] == ChannelSeen(key);
      } else {
        ok := MakeDataChannel(key, c);
      }
    }

    /** The end of a wait for a peer; nothing more has happened if it failed. */
    method SeePeer(key: Key) returns (present: bool)
      requires Valid()
      modifies `trace
      ensures Valid() && old(trace) <= trace && Offers(trace) == Offers(old(trace))
      ensures present <==> Present(Now(), key)
      ensures trace == old(trace) + if present then [PeerSeen(key)] else []
    {
      present := key.room in rooms && key.peer in rooms[key.room];
      if present {
        assert Shown(trace, |trace|, key);
        Did(PeerSeen(key));
      }
    }

    /** Looks the channel up in the table. */
    method SeeChannel(key: Key) returns (present: bool)
      requires Valid()
      modifies `trace
      ensures Valid() && old(trace) <= trace && Offers(trace) == Offers(old(trace))
      ensures present <==> key in channels
      ensures trace == old(trace) + if present then [ChannelSeen(key)] else []
    {
      present := key in channels;
      if present {
        Did(ChannelSeen(key));
      }
    }

    /**
     * Waits without end for the peer, so what is left of a wait that fails is the client being stopped. A success is
     * the last act.
     */
    method FindPeer(key: Key, waiting: seq<Incident>) returns (ok: bool)
      requires Valid()
      modifies `clientState, `rooms, `channels, `trace
      ensures Valid() && old(trace) <= trace && Offers(trace) == Offers(old(trace))
      ensures var told := TookAll(old(Now()), waiting, name);
              && Now() == (if Present(told, key) || Ended(told.state) then told else told.(state := EXIT))
              && ok == (Present(told, key) && !Ended(told.state))
      ensures if ok then |old(trace)| < |trace| && trace[|trace| - 1] == PeerSeen(key) else Ended(clientState)
    {
      Others(waiting);
      var present := SeePeer(key);
      if !present && !Ended(clientState) {
        Handle(Stopped);
      }
      ok := !Ended(clientState);
    }

    /**
     * On success the peer was found in its room, and then its channel in the table or made; and it succeeds whenever
     * both are so.
     */
    method ConnectPeer(key: Key, c: Chance) returns (ok: bool)
      requires Valid()
      modifies `clientState, `rooms, `channels, `trace
      ensures Valid() && old(trace) <= trace && Offers(trace) == Offers(old(trace))
      ensures var told := TookAll(old(Now()), c.waiting, name);
              ok <==> Present(told, key) && !Ended(told.state) && AfterChannel(told, key, c, name).1
      ensures ok ==> Since(trace, |old(trace)|, PeerSeen(key))
      ensures ok ==> Since(trace, |old(trace)|, ChannelSeen(key)) || Since(trace, |old(trace)|, SdpSent(key))
      ensures !ok ==> Ended(clientState)
    {
      ok := FindPeer(key, c.waiting);
      if !ok {
        return;
      }
      ghost var seen := trace;
      ok := UseChannel(key, c);
      if ok {
        SinceLater(seen, |seen| - 1, trace, |old(trace)|, PeerSeen(key));
      } else {
        Others(c.after);
        if !Ended(clientState) {
          clientState := EXIT;
        }
      }
    }

    /**
     * An offer needs the channel's table entry; after the look at the table other threads may act again. Backed says
     * when the roster and the SDP offer behind it are of the connection it is sent over.
     */
    method SendFileOffer(spec: FileSpec, c: Chance, ghost from: nat) returns (ok: bool, ghost story: Story)
      requires Valid() && from < |trace| && trace[from] == PeerSeen(KeyOf(spec))
      modifies `clientState, `rooms, `channels, `trace
      ensures Valid() && old(trace) <= trace
      ensures (Now(), ok) == AfterOffer(old(Now()), KeyOf(spec), c, name)
      ensures Offers(trace) == Offers(old(trace)) + if ok then [spec] else []
      ensures ok ==> story.peer == from && |old(trace)| <= story.channel && Told(trace, story, spec)
      ensures ok ==> Backed(trace, story.peer, story.channel, story.offer, KeyOf(spec))
    {
      Others(c.inspecting);
      if !c.inspected {
        return false, Story(0, 0, 0);
      }
      ok, story := OfferOver(spec, c, from);
    }

    /** The second half of it, once the file has been read. */
    method OfferOver(spec: FileSpec, c: Chance, ghost from: nat) returns (ok: bool, ghost story: Story)
      requires Valid() && from < |trace| && trace[from] == PeerSeen(KeyOf(spec))
      modifies `clientState, `rooms, `channels, `trace
      ensures Valid() && old(trace) <= trace
      ensures ok <==> KeyOf(spec) in old(channels) && c.sent
      ensures Now() == if KeyOf(spec) !in old(channels) then old(Now()) else
                TookAll(old(Now()), c.looking, name).(state := if c.sent then WAIT_FOR_FILE_ACCEPT else RUN)
      ensures Offers(trace) == Offers(old(trace)) + if ok then [spec] else []
      ensures ok ==> story.peer == from && |old(trace)| <= story.channel && Told(trace, story, spec)
      ensures ok ==> Backed(trace, story.peer, story.channel, story.offer, KeyOf(spec))
    {
      ghost var found;
      story := Story(0, 0, 0);
      ok, found := LookUp(KeyOf(spec), c.looking, from);
      if ok {
        story := Story(from, found, |trace|);
        ok := Commit(spec, c.sent, from, found);
        if ok {
          FoundMeansBacked(trace, from, found, story.offer, KeyOf(spec));
        }
      }
    }

    /** The look at the table, and what other threads do after it. */
    method LookUp(key: Key, looking: seq<Incident>, ghost from: nat) returns (ok: bool, ghost found: nat)
      requires Valid() && from < |trace| && trace[from] == PeerSeen(key)
      modifies `clientState, `rooms, `channels, `trace
      ensures Valid() && old(trace) <= trace && Offers(trace) == Offers(old(trace))
      ensures ok <==> key in old(channels)
      ensures Now() == if ok then TookAll(old(Now()), looking, name) else old(Now())
      ensures ok ==> |old(trace)| <= found && Found(trace, from, found, |trace|, key)
    {
      found := |trace|;
      ok := SeeChannel(key);
      if ok {
        ghost var seen := trace;
        Others(looking);
        assert trace[from] == seen[from] && trace[found] == seen[found];
      }
    }

    method Commit(spec: FileSpec, sent: bool, ghost from: nat, ghost found: nat) returns (ok: bool)
      requires Valid() && Found(trace, from, found, |trace|, KeyOf(spec))
      modifies `clientState, `trace
      ensures Valid() && ok == sent && clientState == (if sent then WAIT_FOR_FILE_ACCEPT else RUN)
      ensures trace == old(trace) + if ok then [FileOffered(spec)] else []
      ensures Offers(trace) == Offers(old(trace)) + if ok then [spec] else []
      ensures ok ==> Told(trace, Story(from, found, |old(trace)|), spec)
    {
      clientState := WAIT_FOR_FILE_ACCEPT;
      if !sent {
        clientState := RUN;
        return false;
      }
      ghost var before := trace;
      assert Prepared(before, 0, |before|, KeyOf(spec));
      Did(FileOffered(spec));
      StillFound(before, from, found, |before|, KeyOf(spec), trace);
      ok := true;
    }

    /** Joins the entry's room and waits for its peer, for a limited time. */
    method AwaitPeer(spec: FileSpec, c: Chance) returns (ok: bool)
      requires Valid()
      modifies `clientState, `awaited, `rooms, `channels, `trace
      ensures Valid() && old(trace) <= trace && Offers(trace) == Offers(old(trace))
      ensures (Now(), ok) == AfterAwaiting(old(Now()), spec, c, name)
      ensures if ok then |old(trace)| < |trace| && trace[|trace| - 1] == PeerSeen(KeyOf(spec)) else Ended(clientState)
    {
      var joined := JoinRooms([spec.room], [c.join]);
      if !joined {
        return false;
      }
      Others(c.waiting);
      var present := SeePeer(KeyOf(spec));
      if !present && !Ended(clientState) {
        clientState := EXIT;
      }
      ok := !Ended(clientState);
    }

    /** One entry of the list: offered is whether its offer was sent, and story how that came about. */
    method OfferFile(spec: FileSpec, c: Chance) returns (ok: bool, ghost offered: bool, ghost story: Story)
      requires Valid()
      modifies `clientState, `awaited, `rooms, `channels, `trace
      ensures Valid() && old(trace) <= trace && (!ok ==> Ended(clientState))
      ensures Outcome(Now(), ok, offered) == AfterEntry(old(Now()), spec, c, name)
      ensures Offers(trace) == Offers(old(trace)) + if offered then [spec] else []
      ensures offered ==> |old(trace)| <= story.peer && Told(trace, story, spec)
      ensures offered ==> Backed(trace, story.peer, story.channel, story.offer, KeyOf(spec))
    {
      offered, story := false, Story(0, 0, 0);
      ok := AwaitPeer(spec, c);
      if !ok {
        return;
      }
      var ready;
      ready, offered, story := OfferTo(spec, c, |trace| - 1);
      if offered {
        FoundMeansBacked(trace, story.peer, story.channel, story.offer, KeyOf(spec));
      }
      if !ready && !Ended(clientState) {
        clientState := EXIT;
      }
      ok := !Ended(clientState);
    }

    /** Offers a file to the peer that was found as act `from`. */
    method OfferTo(spec: FileSpec, c: Chance, ghost from: nat)
      returns (ready: bool, ghost offered: bool, ghost story: Story)
      requires Valid() && from < |trace| && trace[from] == PeerSeen(KeyOf(spec))
      modifies `clientState, `rooms, `channels, `trace
      ensures Valid() && old(trace) <= trace
      ensures var (reached, had) := AfterChannel(old(Now()), KeyOf(spec), c, name);
              var (tried, made) := if had then AfterOffer(reached, KeyOf(spec), c, name) else (reached, false);
              ready == had && offered == made && Now() == TookAll(tried, c.after, name)
      ensures Offers(trace) == Offers(old(trace)) + if offered then [spec] else []
      ensures offered ==> story.peer == from && Told(trace, story, spec)
    {
      offered, story := false, Story(0, 0, 0);
      ghost var seen := trace;
      ready := UseChannel(KeyOf(spec), c);
      if ready {
        assert trace[from] == seen[from];
        var sent;
        sent, story := SendFileOffer(spec, c, from);
        offered := sent;
      }
      ghost var done := trace;
      Others(c.after);
      if offered {
        StillTold(done, story, spec, trace);
      }
    }

    /**
     * The offers made are the marked entries of the list, in its order and each at most once; AfterEntries says which
     * are marked, and Valid what came before each offer. Failure comes with INIT or EXIT.
     */
    method OfferFiles(specs: seq<FileSpec>, chances: seq<Chance>) returns (ok: bool, ghost marks: seq<bool>)
      requires Valid() && |chances| == |specs|
      modifies `clientState, `awaited, `rooms, `channels, `trace
      ensures Valid() && old(trace) <= trace && (!ok ==> Ended(clientState))
      ensures Sum(Now(), ok, marks) == AfterEntries(old(Now()), specs, chances, name)
      ensures |marks| <= |specs| && Offers(trace) == Offers(old(trace)) + Pick(specs, marks)
      ensures ok ==> |marks| == |specs|
    {
      marks := [];
      ghost var start := Now();
      for i := 0 to |specs|
        invariant Valid() && old(trace) <= trace && |marks| == i
        invariant Sum(Now(), true, marks) == AfterEntries(start, specs[..i], chances[..i], name)
        invariant Offers(trace) == Offers(old(trace)) + Pick(specs, marks)
      {
        OneEntry(start, specs, chances, name, i);
        ghost var offered, story;
        ok, offered, story := OfferFile(specs[i], chances[i]);
        PickMore(specs, marks, offered);
        Assoc(Offers(old(trace)), Pick(specs, marks), if offered then [specs[i]] else []);
        marks := marks + [offered];
        if !ok {
          Stays(start, specs, chances, name, i + 1);
          return;
        }
      }
      assert specs[..|specs|] == specs && chances[..|specs|] == chances;
      ok := true;
    }
  }
}
