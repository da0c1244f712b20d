/**
 * All clients of a server in one signalling session. Each client has one connection up to the server and one down
 * from it, shared by all its peers and rooms, and one table of pending offers; file bytes travel on a channel per
 * sender, receiver and room. Seen from any one of these, the whole is a link of its own.
 */
module Session {
  import opened Wrappers
  import opened Files
  import opened Paths
  import opened Receiver
  import A = Alignment

  type Uuid = A.Uuid

  datatype Trip = Trip(sender: string, receiver: string, room: string)
  datatype Message = OfferMessage(trip: Trip, offer: A.Offer) | AnswerMessage(trip: Trip, answer: A.Answer)
  datatype Pending = Pending(trip: Trip, path: string)

  /** One channel's two ends, with what left the receiver's deque. */
  datatype Ends = Ends(fileQ: seq<string>, current: Option<Bytes>, wire: seq<Bytes>, queue: seq<Incoming>,
                       left: seq<Left>)

  datatype Net = Net(
    up: map<string, seq<Message>>, down: map<string, seq<Message>>, pending: map<string, map<Uuid, Pending>>,
    ends: map<Trip, Ends>, offered: map<Uuid, Pending>, taken: map<Trip, seq<Uuid>>)

  const QUIET := Net(map[], map[], map[], map[], map[], map[])

  datatype Verdict = Ignore | Decline | Accept(env: Env)

  datatype Event =
    | Offer(trip: Trip, uuid: Uuid, path: string, destination: Path)
    | Withdraw(trip: Trip, uuid: Uuid, path: string)
    | Relay(client: string)
    | Drop(client: string)
    | Take(client: string, verdict: Verdict, channel: bool)
    | Dequeue(trip: Trip)
    | SendChunk(trip: Trip)
    | EndFile(trip: Trip)
    | Skip(trip: Trip)
    | CutShort(trip: Trip)
    | Deliver(trip: Trip, writes: bool, env: Env)

  function Lookup<K, V>(m: map<K, V>, k: K, default: V): V {
    if k in m then m[k] else default
  }

  function Up(n: Net, c: string): seq<Message> {
    Lookup(n.up, c, [])
  }

  function Down(n: Net, c: string): seq<Message> {
    Lookup(n.down, c, [])
  }

  function PendingOf(n: Net, c: string): map<Uuid, Pending> {
    Lookup(n.pending, c, map[])
  }

  function EndsOf(n: Net, t: Trip): Ends {
    Lookup(n.ends, t, Ends([], None, [], [], []))
  }

  function TakenOf(n: Net, t: Trip): seq<Uuid> {
    Lookup(n.taken, t, [])
  }

  /** Who a message comes from and who it goes to. */
  function Author(m: Message): string {
    if m.OfferMessage? then m.trip.sender else m.trip.receiver
  }

  function Addressee(m: Message): string {
    if m.OfferMessage? then m.trip.receiver else m.trip.sender
  }

  ghost predicate Enabled(n: Net, e: Event) {
    match e
    case Offer(_, uuid, _, _) => uuid !in n.offered
    case Withdraw(_, uuid, _) => uuid !in n.offered
    case Relay(c) => Up(n, c) != []
    case Drop(c) => Up(n, c) != []
    case Take(c, _, _) => Down(n, c) != []
    case Dequeue(t) => EndsOf(n, t).current.None? && EndsOf(n, t).fileQ != []
    case SendChunk(t) => EndsOf(n, t).current.Some? && EndsOf(n, t).current.value != []
    case EndFile(t) => EndsOf(n, t).current == Some([])
    case Skip(t) => EndsOf(n, t).current.None? && EndsOf(n, t).fileQ != []
    case CutShort(t) => EndsOf(n, t).current.Some? && EndsOf(n, t).current.value != []
    case Deliver(t, _, _) => EndsOf(n, t).wire != []
  }

  function Post(n: Net, m: Message): Net {
    n.(up := n.up[Author(m) := Up(n, Author(m)) + [m]])
  }

  /**
   * A response finds its offer by uuid alone, and the offer says whose queue the file goes to, if that channel is still
   * in the table.
   */
  function TakeAnswer(n: Net, c: string, a: A.Answer, channel: bool): Net {
    if a.uuid !in PendingOf(n, c) then n else
    var p := PendingOf(n, c)[a.uuid];
    var ends := EndsOf(n, p.trip);
    n.(pending := n.pending[c := PendingOf(n, c) - {a.uuid}],
       ends := if a.accepted && channel then n.ends[p.trip := ends.(fileQ := ends.fileQ + [p.path])] else n.ends)
  }

  function TakeOffer(n: Net, m: Message, verdict: Verdict): Net
    requires m.OfferMessage?
  {
    var t, o := m.trip, m.offer;
    match verdict
    case Ignore => n
    case Decline => Post(n, AnswerMessage(t, A.Answer(o.uuid, false)))
    case Accept(env) =>
      var ends := EndsOf(n, t);
      var r := Enqueue(ends.queue, Incoming(o.destination, o.size, Unopened), env);
      Post(n.(ends := n.ends[t := ends.(queue := r.queue, left := ends.left + r.left)],
              taken := n.taken[t := TakenOf(n, t) + [o.uuid]]),
           AnswerMessage(t, A.Answer(o.uuid, true)))
  }

  ghost function Step(disk: A.Disk, max: nat, n: Net, e: Event): Net
    requires max > 0
  {
    if !Enabled(n, e) then n else
    match e
    case Offer(t, uuid, path, destination) =>
      Post(n.(pending := n.pending[t.sender := PendingOf(n, t.sender)[uuid := Pending(t, path)]],
              offered := n.offered[uuid := Pending(t, path)]),
           OfferMessage(t, A.Offer(uuid, |disk(path)|, destination)))
    case Withdraw(t, uuid, path) => n.(offered := n.offered[uuid := Pending(t, path)])
    case Relay(c) =>
      var m := Up(n, c)[0];
      n.(up := n.up[c := Up(n, c)[1..]], down := n.down[Addressee(m) := Down(n, Addressee(m)) + [m]])
    case Drop(c) => n.(up := n.up[c := Up(n, c)[1..]])
    case Take(c, verdict, channel) =>
      var m := Down(n, c)[0];
      var rest := n.(down := n.down[c := Down(n, c)[1..]]);
      if m.OfferMessage? then TakeOffer(rest, m, verdict) else TakeAnswer(rest, c, m.answer, channel)
    case Dequeue(t) =>
      var x := EndsOf(n, t);
      n.(ends := n.ends[t := x.(current := Some(disk(x.fileQ[0])), fileQ := x.fileQ[1..])])
    case SendChunk(t) =>
      var x := EndsOf(n, t);
      var k := Min(max, |x.current.value|);
      n.(ends := n.ends[t := x.(wire := x.wire + [x.current.value[..k]], current := Some(x.current.value[k..]))])
    case EndFile(t) => n.(ends := n.ends[t := EndsOf(n, t).(current := None)])
    case Skip(t) => n.(ends := n.ends[t := EndsOf(n, t).(fileQ := EndsOf(n, t).fileQ[1..])])
    case CutShort(t) => n.(ends := n.ends[t := EndsOf(n, t).(current := None)])
    case Deliver(t, writes, env) =>
      var x := EndsOf(n, t);
      var r := Write(x.queue, x.wire[0], writes, env);
      n.(ends := n.ends[t := x.(wire := x.wire[1..], queue := r.queue, left := x.left + r.left)])
  }

  ghost function Run(disk: A.Disk, max: nat, events: seq<Event>): Net
    requires max > 0
  {
    if events == [] then QUIET else Step(disk, max, Run(disk, max, events[..|events| - 1]), events[|events| - 1])
  }

  // ---- One channel's view of the whole ----

  function OffersOf(messages: seq<Message>, t: Trip): seq<A.Offer> {
    if messages == [] then []
    else (if messages[0].OfferMessage? && messages[0].trip == t then [messages[0].offer] else []) +
         OffersOf(messages[1..], t)
  }

  function AnswersOf(messages: seq<Message>, t: Trip): seq<A.Answer> {
    if messages == [] then []
    else (if messages[0].AnswerMessage? && messages[0].trip == t then [messages[0].answer] else []) +
         AnswersOf(messages[1..], t)
  }

  function PathsFor(offers: map<Uuid, Pending>, t: Trip): map<Uuid, string> {
    map u | u in offers && offers[u].trip == t :: offers[u].path
  }

  /** The link of one sender, receiver and room. */
  function View(n: Net, t: Trip): A.Link {
    var x := EndsOf(n, t);
    A.Link(OffersOf(Down(n, t.receiver), t) + OffersOf(Up(n, t.sender), t),
           AnswersOf(Down(n, t.sender), t) + AnswersOf(Up(n, t.receiver), t),
           PathsFor(PendingOf(n, t.sender), t), x.fileQ, x.current, x.wire, x.queue, x.left,
           PathsFor(n.offered, t), TakenOf(n, t))
  }

  function Verdicts(verdict: Verdict): A.Event {
    match verdict
    case Ignore => A.Ignored
    case Decline => A.Declined
    case Accept(env) => A.Accepted(env)
  }

  /** What an event is to the link t, if it concerns it at all. */
  ghost function Seen(n: Net, e: Event, t: Trip): Option<A.Event>
    requires Enabled(n, e)
  {
    match e
    case Offer(k, uuid, path, destination) => if k == t then Some(A.Offered(uuid, path, destination)) else None
    case Withdraw(k, uuid, path) => if k == t then Some(A.Withdrawn(uuid, path)) else None
    case Relay(_) => None
    case Drop(c) =>
      var m := Up(n, c)[0];
      if m.trip != t then None
      else if m.OfferMessage? then Some(A.OfferLost(|OffersOf(Down(n, t.receiver), t)|))
      else Some(A.AnswerLost(|AnswersOf(Down(n, t.sender), t)|))
    case Take(c, verdict, channel) =>
      var m := Down(n, c)[0];
      if m.trip != t then None
      else if m.AnswerMessage? then Some(A.AnswerTaken(channel))
      else Some(Verdicts(verdict))
    case Dequeue(k) => if k == t then Some(A.Dequeued) else None
    case SendChunk(k) => if k == t then Some(A.ChunkSent) else None
    case EndFile(k) => if k == t then Some(A.FileEnded) else None
    case Skip(k) => if k == t then Some(A.Skipped) else None
    case CutShort(k) => if k == t then Some(A.CutOff) else None
    case Deliver(k, writes, env) => if k == t then Some(A.Delivered(writes, env)) else None
  }

  /** A message carries a uuid of its own link. */
  ghost predicate Known(offered: map<Uuid, Pending>, m: Message) {
    var u := if m.OfferMessage? then m.offer.uuid else m.answer.uuid;
    u in offered && offered[u].trip == m.trip
  }

  ghost predicate UpOk(up: map<string, seq<Message>>, offered: map<Uuid, Pending>) {
    forall c, m | c in up && m in up[c] :: Author(m) == c && Known(offered, m)
  }

  ghost predicate DownOk(down: map<string, seq<Message>>, offered: map<Uuid, Pending>) {
    forall c, m | c in down && m in down[c] :: Addressee(m) == c && Known(offered, m)
  }

  ghost predicate PendingOk(pending: map<string, map<Uuid, Pending>>, offered: map<Uuid, Pending>) {
    forall c, u | c in pending && u in pending[c] ::
      u in offered && pending[c][u] == offered[u] && offered[u].trip.sender == c
  }

  /** Messages are on their authors' and addressees' connections, and responses find the offers they answer. */
  ghost predicate Routed(n: Net) {
    UpOk(n.up, n.offered) && DownOk(n.down, n.offered) && PendingOk(n.pending, n.offered)
  }

  lemma {:induction false} OffersConcat(a: seq<Message>, b: seq<Message>, t: Trip)
    ensures OffersOf(a + b, t) == OffersOf(a, t) + OffersOf(b, t)
  {
    if a == [] {
      assert a + b == b;
    } else {
      assert (a + b)[1..] == a[1..] + b;
      OffersConcat(a[1..], b, t);
    }
  }

  lemma {:induction false} AnswersConcat(a: seq<Message>, b: seq<Message>, t: Trip)
    ensures AnswersOf(a + b, t) == AnswersOf(a, t) + AnswersOf(b, t)
  {
    if a == [] {
      assert a + b == b;
    } else {
      assert (a + b)[1..] == a[1..] + b;
      AnswersConcat(a[1..], b, t);
    }
  }

  /** What one message adds to the messages of a link. */
  lemma OneMessage(m: Message, t: Trip)
    ensures OffersOf([m], t) == if m.OfferMessage? && m.trip == t then [m.offer] else []
    ensures AnswersOf([m], t) == if m.AnswerMessage? && m.trip == t then [m.answer] else []
  {
    assert [m][1..] == [];
  }

  lemma HeadOf(messages: seq<Message>, t: Trip)
    requires messages != []
    ensures OffersOf(messages, t) == OffersOf([messages[0]], t) + OffersOf(messages[1..], t)
    ensures AnswersOf(messages, t) == AnswersOf([messages[0]], t) + AnswersOf(messages[1..], t)
  {
    OneMessage(messages[0], t);
  }

  lemma PostRouted(n: Net, m: Message)
    requires Routed(n) && Known(n.offered, m)
    ensures Routed(Post(n, m))
  {}

  lemma OfferedRouted(n: Net, uuid: Uuid, p: Pending)
    requires Routed(n) && uuid !in n.offered
    ensures Routed(n.(offered := n.offered[uuid := p]))
  {}

  lemma PendingRouted(n: Net, c: string, pending: map<Uuid, Pending>)
    requires Routed(n)
    requires forall u | u in pending :: u in n.offered && pending[u] == n.offered[u] && n.offered[u].trip.sender == c
    ensures Routed(n.(pending := n.pending[c := pending]))
  {}

  lemma PoppedRouted(n: Net, c: string)
    requires Routed(n)
    ensures Up(n, c) != [] ==> Routed(n.(up := n.up[c := Up(n, c)[1..]]))
    ensures Down(n, c) != [] ==> Routed(n.(down := n.down[c := Down(n, c)[1..]]))
  {}

  lemma ArrivedRouted(n: Net, m: Message)
    requires Routed(n) && Known(n.offered, m)
    ensures Routed(n.(down := n.down[Addressee(m) := Down(n, Addressee(m)) + [m]]))
  {}

  lemma TakeRouted(n: Net, c: string, m: Message, verdict: Verdict, channel: bool)
    requires Routed(n) && Known(n.offered, m)
    ensures m.OfferMessage? ==> Routed(TakeOffer(n, m, verdict))
    ensures m.AnswerMessage? ==> Routed(TakeAnswer(n, c, m.answer, channel))
  {
    if m.OfferMessage? {
      match verdict
      case Ignore =>
      case Decline => PostRouted(n, AnswerMessage(m.trip, A.Answer(m.offer.uuid, false)));
      case Accept(env) =>
        var mid := n.(ends := TakeOffer(n, m, verdict).ends, taken := TakeOffer(n, m, verdict).taken);
        PostRouted(mid, AnswerMessage(m.trip, A.Answer(m.offer.uuid, true)));
    } else if m.answer.uuid in PendingOf(n, c) {
      PendingRouted(n, c, PendingOf(n, c) - {m.answer.uuid});
    }
  }

  lemma RoutedSteps(disk: A.Disk, max: nat, n: Net, e: Event)
    requires max > 0 && Routed(n)
    ensures Routed(Step(disk, max, n, e))
  {
    if Enabled(n, e) {
      match e
      case Offer(t, uuid, path, destination) =>
        var p := Pending(t, path);
        var mid := n.(offered := n.offered[uuid := p]);
        OfferedRouted(n, uuid, p);
        PendingRouted(mid, t.sender, PendingOf(n, t.sender)[uuid := p]);
        PostRouted(mid.(pending := n.pending[t.sender := PendingOf(n, t.sender)[uuid := p]]),
                   OfferMessage(t, A.Offer(uuid, |disk(path)|, destination)));
      case Withdraw(t, uuid, path) => OfferedRouted(n, uuid, Pending(t, path));
      case Relay(c) =>
        var m := Up(n, c)[0];
        assert m in n.up[c];
        PoppedRouted(n, c);
        ArrivedRouted(n.(up := n.up[c := Up(n, c)[1..]]), m);
      case Drop(c) => PoppedRouted(n, c);
      case Take(c, verdict, channel) =>
        var m := Down(n, c)[0];
        assert m in n.down[c];
        PoppedRouted(n, c);
        TakeRouted(n.(down := n.down[c := Down(n, c)[1..]]), c, m, verdict, channel);
      case _ =>
    }
  }

  // ---- Every event of the whole is at most one event of each link ----

  /** A message more at the end of client c's connection, as the link t sees client w's. */
  lemma Appended(boxes: map<string, seq<Message>>, c: string, m: Message, w: string, t: Trip)
    ensures var after := boxes[c := Lookup(boxes, c, []) + [m]];
            && OffersOf(Lookup(after, w, []), t) == OffersOf(Lookup(boxes, w, []), t) +
               (if c == w then OffersOf([m], t) else [])
            && AnswersOf(Lookup(after, w, []), t) == AnswersOf(Lookup(boxes, w, []), t) +
               (if c == w then AnswersOf([m], t) else [])
  {
    OffersConcat(Lookup(boxes, c, []), [m], t);
    AnswersConcat(Lookup(boxes, c, []), [m], t);
  }

  /** The first message taken off client c's connection, as the link t sees client w's. */
  lemma Popped(boxes: map<string, seq<Message>>, c: string, w: string, t: Trip)
    requires Lookup(boxes, c, []) != []
    ensures var m := Lookup(boxes, c, [])[0];
            var after := boxes[c := Lookup(boxes, c, [])[1..]];
            && OffersOf(Lookup(boxes, w, []), t) == (if c == w then OffersOf([m], t) else []) +
               OffersOf(Lookup(after, w, []), t)
            && AnswersOf(Lookup(boxes, w, []), t) == (if c == w then AnswersOf([m], t) else []) +
               AnswersOf(Lookup(after, w, []), t)
  {
    HeadOf(Lookup(boxes, c, []), t);
  }

  lemma PostView(n: Net, m: Message, t: Trip)
    ensures View(Post(n, m), t).offers == View(n, t).offers + OffersOf([m], t)
    ensures View(Post(n, m), t).answers == View(n, t).answers + AnswersOf([m], t)
  {
    OneMessage(m, t);
    Appended(n.up, Author(m), m, t.sender, t);
    Appended(n.up, Author(m), m, t.receiver, t);
    Assoc(OffersOf(Down(n, t.receiver), t), OffersOf(Up(n, t.sender), t), OffersOf([m], t));
    Assoc(AnswersOf(Down(n, t.sender), t), AnswersOf(Up(n, t.receiver), t), AnswersOf([m], t));
  }

  /** The messages the link t has under way, and the rest of its state. */
  ghost predicate SameMail(n: Net, after: Net, t: Trip) {
    View(after, t).offers == View(n, t).offers && View(after, t).answers == View(n, t).answers
  }

  /** One message, if any of a link, goes from the end of one connection's messages to the other's. */
  lemma Moved<T>(down: seq<T>, up: seq<T>, down': seq<T>, up': seq<T>, x: seq<T>, here: bool, there: bool)
    requires up == (if here then x else []) + up' && down' == down + (if there then x else [])
    requires x == [] || (here && there)
    ensures down' + up' == down + up
  {}

  lemma Taken<T>(down: seq<T>, up: seq<T>, up': seq<T>, x: seq<T>, here: bool)
    requires up == (if here then x else []) + up' && (x == [] || (here && |x| == 1))
    ensures if x == [] then down + up' == down + up
            else |down| < |down + up| && down + up' == A.Without(down + up, |down|)
  {}

  lemma RelayView(n: Net, c: string, t: Trip)
    requires Routed(n) && Up(n, c) != []
    ensures var m := Up(n, c)[0];
            var mid := n.(up := n.up[c := Up(n, c)[1..]]);
            SameMail(n, mid.(down := n.down[Addressee(m) := Down(n, Addressee(m)) + [m]]), t)
  {
    var m := Up(n, c)[0];
    var mid := n.(up := n.up[c := Up(n, c)[1..]]);
    var after := mid.(down := n.down[Addressee(m) := Down(n, Addressee(m)) + [m]]);
    assert m in n.up[c] && Author(m) == c;
    OneMessage(m, t);
    Popped(n.up, c, t.sender, t);
    Popped(n.up, c, t.receiver, t);
    Appended(n.down, Addressee(m), m, t.sender, t);
    Appended(n.down, Addressee(m), m, t.receiver, t);
    Moved(OffersOf(Down(n, t.receiver), t), OffersOf(Up(n, t.sender), t), OffersOf(Down(after, t.receiver), t),
          OffersOf(Up(after, t.sender), t), OffersOf([m], t), c == t.sender, Addressee(m) == t.receiver);
    Moved(AnswersOf(Down(n, t.sender), t), AnswersOf(Up(n, t.receiver), t), AnswersOf(Down(after, t.sender), t),
          AnswersOf(Up(after, t.receiver), t), AnswersOf([m], t), c == t.receiver, Addressee(m) == t.sender);
  }

  lemma DropMail(n: Net, c: string, t: Trip)
    requires Routed(n) && Up(n, c) != []
    ensures var after := n.(up := n.up[c := Up(n, c)[1..]]);
            var m, i, j := Up(n, c)[0], |OffersOf(Down(n, t.receiver), t)|, |AnswersOf(Down(n, t.sender), t)|;
            && (if m.trip == t && m.OfferMessage?
                then i < |View(n, t).offers| && View(after, t).offers == A.Without(View(n, t).offers, i)
                else View(after, t).offers == View(n, t).offers)
            && (if m.trip == t && m.AnswerMessage?
                then j < |View(n, t).answers| && View(after, t).answers == A.Without(View(n, t).answers, j)
                else View(after, t).answers == View(n, t).answers)
  {
    var m := Up(n, c)[0];
    var after := n.(up := n.up[c := Up(n, c)[1..]]);
    assert m in n.up[c] && Author(m) == c;
    OneMessage(m, t);
    Popped(n.up, c, t.sender, t);
    Popped(n.up, c, t.receiver, t);
    Taken(OffersOf(Down(n, t.receiver), t), OffersOf(Up(n, t.sender), t), OffersOf(Up(after, t.sender), t),
          OffersOf([m], t), c == t.sender);
    Taken(AnswersOf(Down(n, t.sender), t), AnswersOf(Up(n, t.receiver), t), AnswersOf(Up(after, t.receiver), t),
          AnswersOf([m], t), c == t.receiver);
  }

  /** The client c takes a message: of its own link the first one of its kind. */
  lemma TakeMail(n: Net, c: string, t: Trip)
    requires Routed(n) && Down(n, c) != []
    ensures var after := n.(down := n.down[c := Down(n, c)[1..]]);
            var m := Down(n, c)[0];
            && View(n, t).offers == (if m.trip == t && m.OfferMessage? then [m.offer] else []) + View(after, t).offers
            && View(n, t).answers == (if m.trip == t && m.AnswerMessage? then [m.answer] else []) +
               View(after, t).answers
  {
    var m := Down(n, c)[0];
    var after := n.(down := n.down[c := Down(n, c)[1..]]);
    assert m in n.down[c] && Addressee(m) == c;
    OneMessage(m, t);
    Popped(n.down, c, t.sender, t);
    Popped(n.down, c, t.receiver, t);
    Assoc(OffersOf([m], t), OffersOf(Down(after, t.receiver), t), OffersOf(Up(n, t.sender), t));
    Assoc(AnswersOf([m], t), AnswersOf(Down(after, t.sender), t), AnswersOf(Up(n, t.receiver), t));
  }

  ghost predicate Projects(disk: A.Disk, max: nat, n: Net, e: Event, t: Trip)
    requires max > 0 && Enabled(n, e)
  {
    var seen := Seen(n, e, t);
    View(Step(disk, max, n, e), t) == if seen.Some? then A.Step(disk, max, View(n, t), seen.value) else View(n, t)
  }

  lemma DropOtherView(disk: A.Disk, max: nat, n: Net, c: string, t: Trip)
    requires max > 0 && Routed(n) && Up(n, c) != [] && Up(n, c)[0].trip != t
    ensures Projects(disk, max, n, Drop(c), t)
  {
    DropMail(n, c, t);
  }

  lemma DropOfferView(disk: A.Disk, max: nat, n: Net, c: string, t: Trip)
    requires max > 0 && Routed(n) && Up(n, c) != [] && Up(n, c)[0].trip == t && Up(n, c)[0].OfferMessage?
    ensures Projects(disk, max, n, Drop(c), t)
  {
    DropMail(n, c, t);
  }

  lemma DropAnswerView(disk: A.Disk, max: nat, n: Net, c: string, t: Trip)
    requires max > 0 && Routed(n) && Up(n, c) != [] && Up(n, c)[0].trip == t && Up(n, c)[0].AnswerMessage?
    ensures Projects(disk, max, n, Drop(c), t)
  {
    DropMail(n, c, t);
  }

  lemma DropView(disk: A.Disk, max: nat, n: Net, c: string, t: Trip)
    requires max > 0 && Routed(n) && Up(n, c) != []
    ensures Projects(disk, max, n, Drop(c), t)
  {
    if Up(n, c)[0].trip != t {
      DropOtherView(disk, max, n, c, t);
    } else if Up(n, c)[0].OfferMessage? {
      DropOfferView(disk, max, n, c, t);
    } else {
      DropAnswerView(disk, max, n, c, t);
    }
  }

  /** The link's own response takes the link's own offer; another's takes none of it. */
  lemma AnswerView(n: Net, m: Message, channel: bool, t: Trip)
    requires Routed(n) && m.AnswerMessage? && Known(n.offered, m)
    ensures View(TakeAnswer(n, m.trip.sender, m.answer, channel), t) ==
            if m.trip == t then A.TakeAnswer(View(n, t), m.answer, channel) else View(n, t)
  {
    var mine := PendingOf(n, m.trip.sender);
    if m.answer.uuid in mine {
      assert mine[m.answer.uuid].trip == m.trip;
      OneLess(mine, m.answer.uuid, t);
    }
  }

  /** What a verdict makes of a link whose offer o it takes. */
  function Judged(v: A.Link, o: A.Offer, verdict: Verdict): A.Link {
    match verdict
    case Ignore => v
    case Decline => v.(answers := v.answers + [A.Answer(o.uuid, false)])
    case Accept(env) =>
      var r := Enqueue(v.queue, Incoming(o.destination, o.size, Unopened), env);
      v.(answers := v.answers + [A.Answer(o.uuid, true)], queue := r.queue, left := v.left + r.left,
         taken := v.taken + [o.uuid])
  }

  lemma JudgedStep(disk: A.Disk, max: nat, v: A.Link, w: A.Link, o: A.Offer, verdict: Verdict)
    requires max > 0 && v == w.(offers := [o] + w.offers)
    ensures A.Step(disk, max, v, Verdicts(verdict)) == Judged(w, o, verdict)
  {
    assert v.offers[0] == o && v.offers[1..] == w.offers;
  }

  lemma OfferTakenView(n: Net, m: Message, verdict: Verdict, t: Trip)
    requires m.OfferMessage?
    ensures View(TakeOffer(n, m, verdict), t) ==
            if m.trip == t then Judged(View(n, t), m.offer, verdict) else View(n, t)
  {
    Assoc(View(n, t).answers, [], []);
    Assoc(View(n, t).offers, [], []);
    var reply := AnswerMessage(m.trip, A.Answer(m.offer.uuid, verdict.Accept?));
    var mid := n.(ends := TakeOffer(n, m, verdict).ends, taken := TakeOffer(n, m, verdict).taken);
    PostView(mid, reply, t);
    OneMessage(reply, t);
  }

  lemma TakeOwnOfferView(disk: A.Disk, max: nat, n: Net, c: string, verdict: Verdict, channel: bool, t: Trip)
    requires max > 0 && Routed(n) && Down(n, c) != [] && Down(n, c)[0].OfferMessage? && Down(n, c)[0].trip == t
    ensures Projects(disk, max, n, Take(c, verdict, channel), t)
  {
    var m := Down(n, c)[0];
    var rest := n.(down := n.down[c := Down(n, c)[1..]]);
    TakeMail(n, c, t);
    Assoc([], [], View(rest, t).answers);
    OfferTakenView(rest, m, verdict, t);
    JudgedStep(disk, max, View(n, t), View(rest, t), m.offer, verdict);
  }

  lemma TakeOtherOfferView(disk: A.Disk, max: nat, n: Net, c: string, verdict: Verdict, channel: bool, t: Trip)
    requires max > 0 && Routed(n) && Down(n, c) != [] && Down(n, c)[0].OfferMessage? && Down(n, c)[0].trip != t
    ensures Projects(disk, max, n, Take(c, verdict, channel), t)
  {
    var rest := n.(down := n.down[c := Down(n, c)[1..]]);
    TakeMail(n, c, t);
    Assoc([], [], View(rest, t).offers);
    Assoc([], [], View(rest, t).answers);
    OfferTakenView(rest, Down(n, c)[0], verdict, t);
  }

  lemma TakeOfferView(disk: A.Disk, max: nat, n: Net, c: string, verdict: Verdict, channel: bool, t: Trip)
    requires max > 0 && Routed(n) && Down(n, c) != [] && Down(n, c)[0].OfferMessage?
    ensures Projects(disk, max, n, Take(c, verdict, channel), t)
  {
    if Down(n, c)[0].trip == t {
      TakeOwnOfferView(disk, max, n, c, verdict, channel, t);
    } else {
      TakeOtherOfferView(disk, max, n, c, verdict, channel, t);
    }
  }

  lemma AnswerStep(disk: A.Disk, max: nat, v: A.Link, w: A.Link, a: A.Answer, channel: bool)
    requires max > 0 && v == w.(answers := [a] + w.answers)
    ensures A.Step(disk, max, v, A.AnswerTaken(channel)) == A.TakeAnswer(w, a, channel)
  {
    assert v.answers[0] == a && v.answers[1..] == w.answers;
  }

  lemma TakeOwnAnswerView(disk: A.Disk, max: nat, n: Net, c: string, verdict: Verdict, channel: bool, t: Trip)
    requires max > 0 && Routed(n) && Down(n, c) != [] && Down(n, c)[0].AnswerMessage? && Down(n, c)[0].trip == t
    ensures Projects(disk, max, n, Take(c, verdict, channel), t)
  {
    var m := Down(n, c)[0];
    var rest := n.(down := n.down[c := Down(n, c)[1..]]);
    assert m in n.down[c] && Addressee(m) == c;
    TakeMail(n, c, t);
    Assoc([], [], View(rest, t).offers);
    PoppedRouted(n, c);
    AnswerView(rest, m, channel, t);
    AnswerStep(disk, max, View(n, t), View(rest, t), m.answer, channel);
  }

  lemma TakeOtherAnswerView(disk: A.Disk, max: nat, n: Net, c: string, verdict: Verdict, channel: bool, t: Trip)
    requires max > 0 && Routed(n) && Down(n, c) != [] && Down(n, c)[0].AnswerMessage? && Down(n, c)[0].trip != t
    ensures Projects(disk, max, n, Take(c, verdict, channel), t)
  {
    var m := Down(n, c)[0];
    var rest := n.(down := n.down[c := Down(n, c)[1..]]);
    assert m in n.down[c] && Addressee(m) == c;
    TakeMail(n, c, t);
    Assoc([], [], View(rest, t).offers);
    Assoc([], [], View(rest, t).answers);
    PoppedRouted(n, c);
    AnswerView(rest, m, channel, t);
  }

  lemma TakeAnswerView(disk: A.Disk, max: nat, n: Net, c: string, verdict: Verdict, channel: bool, t: Trip)
    requires max > 0 && Routed(n) && Down(n, c) != [] && Down(n, c)[0].AnswerMessage?
    ensures Projects(disk, max, n, Take(c, verdict, channel), t)
  {
    if Down(n, c)[0].trip == t {
      TakeOwnAnswerView(disk, max, n, c, verdict, channel, t);
    } else {
      TakeOtherAnswerView(disk, max, n, c, verdict, channel, t);
    }
  }

  lemma RecordView(n: Net, uuid: Uuid, p: Pending, t: Trip)
    requires Routed(n) && uuid !in n.offered
    ensures var mine, v := PendingOf(n, p.trip.sender), View(n, t);
            View(n.(pending := n.pending[p.trip.sender := mine[uuid := p]], offered := n.offered[uuid := p]), t) ==
            if p.trip == t then v.(pending := v.pending[uuid := p.path], offered := v.offered[uuid := p.path]) else v
  {
    var mine := PendingOf(n, p.trip.sender);
    assert uuid !in mine;
    OneMore(n.offered, uuid, p, t);
    OneMore(mine, uuid, p, t);
  }

  lemma OfferView(disk: A.Disk, max: nat, n: Net, e: Event, t: Trip)
    requires max > 0 && Routed(n) && Enabled(n, e) && e.Offer?
    ensures Projects(disk, max, n, e, t)
  {
    var k := e.trip;
    var p := Pending(k, e.path);
    var mid := n.(pending := n.pending[k.sender := PendingOf(n, k.sender)[e.uuid := p]],
                  offered := n.offered[e.uuid := p]);
    var m := OfferMessage(k, A.Offer(e.uuid, |disk(e.path)|, e.destination));
    RecordView(n, e.uuid, p, t);
    PostView(mid, m, t);
    OneMessage(m, t);
    Assoc(View(n, t).answers, [], []);
    Assoc(View(n, t).offers, [], []);
  }

  /** A fresh uuid adds to its own link's offers only. */
  lemma OneMore(offers: map<Uuid, Pending>, uuid: Uuid, p: Pending, t: Trip)
    requires uuid !in offers
    ensures PathsFor(offers[uuid := p], t) ==
            if p.trip == t then PathsFor(offers, t)[uuid := p.path] else PathsFor(offers, t)
  {}

  lemma OneLess(offers: map<Uuid, Pending>, uuid: Uuid, t: Trip)
    requires uuid in offers
    ensures PathsFor(offers - {uuid}, t) ==
            if offers[uuid].trip == t then PathsFor(offers, t) - {uuid} else PathsFor(offers, t)
  {}

  lemma EndsView(n: Net, k: Trip, x: Ends, t: Trip)
    ensures View(n.(ends := n.ends[k := x]), t) == if k != t then View(n, t) else
            View(n, t).(fileQ := x.fileQ, current := x.current, wire := x.wire, queue := x.queue, left := x.left)
  {}

  lemma SenderView(disk: A.Disk, max: nat, n: Net, e: Event, t: Trip)
    requires max > 0 && Enabled(n, e) && (e.Dequeue? || e.EndFile?)
    ensures Projects(disk, max, n, e, t)
  {
    EndsView(n, e.trip, EndsOf(Step(disk, max, n, e), e.trip), t);
  }

  lemma UnreadView(disk: A.Disk, max: nat, n: Net, e: Event, t: Trip)
    requires max > 0 && Enabled(n, e) && (e.Skip? || e.CutShort?)
    ensures Projects(disk, max, n, e, t)
  {
    EndsView(n, e.trip, EndsOf(Step(disk, max, n, e), e.trip), t);
  }

  lemma ChannelView(disk: A.Disk, max: nat, n: Net, e: Event, t: Trip)
    requires max > 0 && Enabled(n, e) && e.SendChunk?
    ensures Projects(disk, max, n, e, t)
  {
    EndsView(n, e.trip, EndsOf(Step(disk, max, n, e), e.trip), t);
  }

  lemma DeliverOwnView(disk: A.Disk, max: nat, n: Net, e: Event)
    requires max > 0 && Enabled(n, e) && e.Deliver?
    ensures Projects(disk, max, n, e, e.trip)
  {
    EndsView(n, e.trip, EndsOf(Step(disk, max, n, e), e.trip), e.trip);
  }

  lemma DeliverView(disk: A.Disk, max: nat, n: Net, e: Event, t: Trip)
    requires max > 0 && Enabled(n, e) && e.Deliver?
    ensures Projects(disk, max, n, e, t)
  {
    if t == e.trip {
      DeliverOwnView(disk, max, n, e);
    } else {
      EndsView(n, e.trip, EndsOf(Step(disk, max, n, e), e.trip), t);
    }
  }

  lemma WithdrawView(disk: A.Disk, max: nat, n: Net, e: Event, t: Trip)
    requires max > 0 && Enabled(n, e) && e.Withdraw?
    ensures Projects(disk, max, n, e, t)
  {
    OneMore(n.offered, e.uuid, Pending(e.trip, e.path), t);
  }

  lemma RelayProjects(disk: A.Disk, max: nat, n: Net, e: Event, t: Trip)
    requires max > 0 && Routed(n) && Enabled(n, e) && e.Relay?
    ensures Projects(disk, max, n, e, t)
  {
    RelayView(n, e.client, t);
  }

  lemma {:induction false} StepProjects(disk: A.Disk, max: nat, n: Net, e: Event, t: Trip)
    requires max > 0 && Routed(n) && Enabled(n, e)
    ensures Projects(disk, max, n, e, t)
  {
    match e
    case Offer(_, _, _, _) => OfferView(disk, max, n, e, t);
    case Withdraw(_, _, _) => WithdrawView(disk, max, n, e, t);
    case Relay(_) => RelayProjects(disk, max, n, e, t);
    case Drop(c) => DropView(disk, max, n, c, t);
    case Take(c, verdict, channel) =>
      if Down(n, c)[0].OfferMessage? {
        TakeOfferView(disk, max, n, c, verdict, channel, t);
      } else {
        TakeAnswerView(disk, max, n, c, verdict, channel, t);
      }
    case SendChunk(_) => ChannelView(disk, max, n, e, t);
    case Deliver(_, _, _) => DeliverView(disk, max, n, e, t);
    case Dequeue(_) => SenderView(disk, max, n, e, t);
    case EndFile(_) => SenderView(disk, max, n, e, t);
    case _ => UnreadView(disk, max, n, e, t);
  }

  // ---- Alignment of every channel at once ----

  /** What the event is to the link t, if anything, does no harm there. */
  ghost predicate HarmlessTo(disk: A.Disk, n: Net, e: Event, t: Trip) {
    Enabled(n, e) && Seen(n, e, t).Some? ==> A.Harmless(disk, View(n, t), Seen(n, e, t).value)
  }

  /** No link suffers what would break it. */
  ghost predicate Harmless(disk: A.Disk, n: Net, e: Event) {
    forall t :: HarmlessTo(disk, n, e, t)
  }

  ghost predicate HarmlessRun(disk: A.Disk, max: nat, events: seq<Event>)
    requires max > 0
  {
    forall k | 0 <= k < |events| :: Harmless(disk, Run(disk, max, events[..k]), events[k])
  }

  /**
   * Whatever clients share connections and however their messages and chunks interleave, each channel stays in order.
   */
  lemma {:induction false} EveryLinkKeeps(disk: A.Disk, max: nat, events: seq<Event>)
    requires max > 0 && HarmlessRun(disk, max, events)
    ensures Routed(Run(disk, max, events))
    ensures forall t :: A.Inv(disk, View(Run(disk, max, events), t))
  {
    if events != [] {
      var k := |events| - 1;
      var n, e := Run(disk, max, events[..k]), events[k];
      assert forall j | 0 <= j < k :: events[..k][..j] == events[..j] && events[..k][j] == events[j];
      EveryLinkKeeps(disk, max, events[..k]);
      RoutedSteps(disk, max, n, e);
      if Enabled(n, e) {
        forall t ensures A.Inv(disk, View(Step(disk, max, n, e), t)) {
          StepProjects(disk, max, n, e, t);
          assert HarmlessTo(disk, n, e, t);
          if Seen(n, e, t).Some? {
            A.StepKeeps(disk, max, View(n, t), Seen(n, e, t).value);
          }
        }
      }
    }
  }

  lemma {:induction false} EveryChannelAligned(disk: A.Disk, max: nat, events: seq<Event>, t: Trip)
    requires max > 0 && HarmlessRun(disk, max, events)
    ensures AlignedAt(disk, Run(disk, max, events), t)
  {
    EveryLinkKeeps(disk, max, events);
    A.InvAligned(disk, View(Run(disk, max, events), t));
  }

  lemma LinkExactly(disk: A.Disk, max: nat, l: A.Link, e: Option<A.Event>)
    requires max > 0 && A.Inv(disk, l)
    ensures A.Aligned(disk, if e.Some? then A.Step(disk, max, l, e.value) else l) <==>
            (e.Some? ==> A.Harmless(disk, l, e.value))
  {
    A.InvAligned(disk, l);
    if e.Some? {
      A.AlignedExactly(disk, max, l, e.value);
    }
  }

  ghost predicate AlignedAt(disk: A.Disk, n: Net, t: Trip) {
    A.Aligned(disk, View(n, t))
  }

  lemma AlignedExactlyAt(disk: A.Disk, max: nat, n: Net, e: Event, t: Trip)
    requires max > 0 && Routed(n) && A.Inv(disk, View(n, t))
    ensures AlignedAt(disk, Step(disk, max, n, e), t) <==> HarmlessTo(disk, n, e, t)
  {
    if Enabled(n, e) {
      StepProjects(disk, max, n, e, t);
      LinkExactly(disk, max, View(n, t), Seen(n, e, t));
    } else {
      LinkExactly(disk, max, View(n, t), None);
    }
  }

  ghost predicate LinkOk(disk: A.Disk, n: Net, t: Trip) {
    A.Inv(disk, View(n, t))
  }

  /** An event leaves every channel aligned if and only if it is harmless to every one of them. */
  lemma AllAlignedExactly(disk: A.Disk, max: nat, n: Net, e: Event)
    requires max > 0 && Routed(n) && forall t :: LinkOk(disk, n, t)
    ensures (forall t :: AlignedAt(disk, Step(disk, max, n, e), t)) <==> (forall t :: HarmlessTo(disk, n, e, t))
  {
    forall t ensures AlignedAt(disk, Step(disk, max, n, e), t) <==> HarmlessTo(disk, n, e, t) {
      assert LinkOk(disk, n, t);
      AlignedExactlyAt(disk, max, n, e, t);
    }
  }

  /**
   * Every file that left a deque answers the offer accepted at that place, which was made for that sender, receiver and
   * room: closed as complete it is that file byte for byte, and no file with bytes was given up before its last chunk.
   */
  lemma {:induction false} EveryFileArrivesIdentical(disk: A.Disk, max: nat, events: seq<Event>, t: Trip, i: nat)
    requires max > 0 && HarmlessRun(disk, max, events) && i < |EndsOf(Run(disk, max, events), t).left|
    ensures var n := Run(disk, max, events);
            && i < |TakenOf(n, t)| && TakenOf(n, t)[i] in n.offered && n.offered[TakenOf(n, t)[i]].trip == t
            && var file, gone := disk(n.offered[TakenOf(n, t)[i]].path), EndsOf(n, t).left[i];
               && (gone.fate == Complete ==> gone.content == file)
               && (gone.fate == Complete || gone.fate == WriteFailed || file == [])
  {
    EveryLinkKeeps(disk, max, events);
    var l := View(Run(disk, max, events), t);
    assert A.Expected(disk, l)[i] == A.Content(disk, l.offered, l.taken[i]);
    assert l.taken[i] in l.offered;
  }
}
