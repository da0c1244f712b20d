/**
 * Remote candidates of an iOS peer session (PeerSession.swift). Answers and candidates may be handled by several
 * threads at once; what they do under the session's lock is one step, and so is each call into the transport.
 */
module IosSession {

  /** Candidates are numbered as they arrive. */
  type Candidate = nat

  /** How far an answer's thread is: its description is set, or it applies what it took out of the queue. */
  datatype Stage = Described | Applying(queue: seq<Candidate>)

  /**
   * described: whether the transport ever took a remote description; adding: candidates whose threads saw that there
   * was one and have still to apply them; applied is history.
   */
  datatype State = State(
    described: bool, hasRemoteDescription: bool, pendingRemote: seq<Candidate>, answers: seq<Stage>,
    adding: set<Candidate>, applied: seq<Candidate>, arrived: nat)

  const START := State(false, false, [], [], {}, [], 0)

  datatype Event =
    | AnswerGiven(ok: bool)
    | QueueTaken(answer: nat)
    | QueuedApplied(answer: nat)
    | CandidateArrived
    | CandidateApplied(candidate: Candidate)

  predicate Enabled(s: State, e: Event) {
    match e
    case QueueTaken(i) => i < |s.answers| && s.answers[i].Described?
    case QueuedApplied(i) => i < |s.answers| && s.answers[i].Applying? && s.answers[i].queue != []
    case CandidateApplied(c) => c in s.adding
    case _ => true
  }

  function Step(s: State, e: Event): State {
    if !Enabled(s, e) then s else
    match e
    case AnswerGiven(ok) => if ok then s.(described := true, answers := s.answers + [Described]) else s
    case QueueTaken(i) =>
      s.(hasRemoteDescription := true, pendingRemote := [], answers := s.answers[i := Applying(s.pendingRemote)])
    case QueuedApplied(i) =>
      var q := s.answers[i].queue;
      s.(applied := s.applied + [q[0]], answers := s.answers[i := Applying(q[1..])])
    case CandidateArrived =>
      var c := s.arrived;
      if s.hasRemoteDescription then s.(arrived := c + 1, adding := s.adding + {c})
      else s.(arrived := c + 1, pendingRemote := s.pendingRemote + [c])
    case CandidateApplied(c) => s.(applied := s.applied + [c], adding := s.adding - {c})
  }

  function Run(events: seq<Event>): State {
    if events == [] then START else Step(Run(events[..|events| - 1]), events[|events| - 1])
  }

  // ---- Where every candidate is ----

  function Count(queue: seq<Candidate>, c: Candidate): nat {
    multiset(queue)[c]
  }

  function InHand(stage: Stage, c: Candidate): nat {
    if stage.Applying? then Count(stage.queue, c) else 0
  }

  /** How often c is in the hands of the answers' threads. */
  function Taken(answers: seq<Stage>, c: Candidate): nat {
    if answers == [] then 0 else Taken(answers[..|answers| - 1], c) + InHand(answers[|answers| - 1], c)
  }

  function Places(s: State, c: Candidate): nat {
    Count(s.pendingRemote, c) + Taken(s.answers, c) + (if c in s.adding then 1 else 0) + Count(s.applied, c)
  }

  /** Each candidate that arrived is in exactly one place, once. */
  ghost predicate Conserved(s: State) {
    forall c: Candidate :: Places(s, c) == if c < s.arrived then 1 else 0
  }

  ghost predicate Orderly(s: State) {
    && (s.hasRemoteDescription ==> s.described && s.pendingRemote == [])
    && (s.answers != [] ==> s.described)
    && ((exists i :: 0 <= i < |s.answers| && s.answers[i].Applying?) ==> s.hasRemoteDescription)
    && (s.adding != {} || s.applied != [] ==> s.hasRemoteDescription)
  }

  lemma {:induction false} TakenUpdate(answers: seq<Stage>, i: nat, queue: seq<Candidate>, c: Candidate)
    requires i < |answers|
    ensures Taken(answers[i := Applying(queue)], c) + InHand(answers[i], c) == Taken(answers, c) + Count(queue, c)
  {
    var n, after := |answers| - 1, answers[i := Applying(queue)];
    if i < n {
      assert after[..n] == answers[..n][i := Applying(queue)];
      TakenUpdate(answers[..n], i, queue, c);
    } else {
      assert after[..n] == answers[..n];
    }
  }

  lemma CountConcat(a: seq<Candidate>, b: seq<Candidate>, c: Candidate)
    ensures Count(a + b, c) == Count(a, c) + Count(b, c)
  {
    assert multiset(a + b) == multiset(a) + multiset(b);
  }

  lemma CountOne(d: Candidate, c: Candidate)
    ensures Count([d], c) == if c == d then 1 else 0
  {}

  /** Every step moves a candidate from one place to the next, or brings a new one. */
  lemma StepPlaces(s: State, e: Event, c: Candidate)
    requires Enabled(s, e)
    ensures e.CandidateArrived? && c == s.arrived && c !in s.adding ==> Places(Step(s, e), c) == Places(s, c) + 1
    ensures !(e.CandidateArrived? && c == s.arrived) ==> Places(Step(s, e), c) == Places(s, c)
  {
    match e
    case AnswerGiven(ok) => assert (s.answers + [Described])[..|s.answers|] == s.answers;
    case QueueTaken(i) => TakenUpdate(s.answers, i, s.pendingRemote, c);
    case QueuedApplied(i) =>
      var q := s.answers[i].queue;
      TakenUpdate(s.answers, i, q[1..], c);
      assert q == [q[0]] + q[1..];
      CountConcat([q[0]], q[1..], c);
      CountConcat(s.applied, [q[0]], c);
    case CandidateArrived =>
      CountConcat(s.pendingRemote, [s.arrived], c);
      CountOne(s.arrived, c);
    case CandidateApplied(d) =>
      CountConcat(s.applied, [d], c);
      CountOne(d, c);
  }

  lemma StepConserved(s: State, e: Event)
    requires Conserved(s) && Enabled(s, e)
    ensures Conserved(Step(s, e))
  {
    forall c: Candidate ensures Places(Step(s, e), c) == if c < Step(s, e).arrived then 1 else 0 {
      assert Places(s, c) == if c < s.arrived then 1 else 0;
      StepPlaces(s, e, c);
    }
  }

  lemma StepOrderly(s: State, e: Event)
    requires Orderly(s)
    ensures Orderly(Step(s, e))
  {}

  lemma {:induction false} AlwaysOrderly(events: seq<Event>)
    ensures Conserved(Run(events)) && Orderly(Run(events))
  {
    if events != [] {
      AlwaysOrderly(events[..|events| - 1]);
      var s, e := Run(events[..|events| - 1]), events[|events| - 1];
      if Enabled(s, e) {
        StepConserved(s, e);
        StepOrderly(s, e);
      }
    }
  }

  /** Under every interleaving each candidate is applied at most once, and only one that arrived. */
  lemma AppliedAtMostOnce(events: seq<Event>, c: Candidate)
    ensures Count(Run(events).applied, c) <= if c < Run(events).arrived then 1 else 0
  {
    AlwaysOrderly(events);
    assert Places(Run(events), c) <= 1;
  }

  /** The transport has a remote description exactly if it was given an answer that it took. */
  lemma {:induction false} DescribedExactly(events: seq<Event>)
    ensures Run(events).described <==> AnswerGiven(true) in events
  {
    if events != [] {
      DescribedExactly(events[..|events| - 1]);
      assert events == events[..|events| - 1] + [events[|events| - 1]];
    }
  }

  /** A step that applies a candidate comes after an answer that the transport took. */
  lemma NeverAppliedEarly(events: seq<Event>, e: Event)
    requires Step(Run(events), e).applied != Run(events).applied
    ensures AnswerGiven(true) in events && Run(events).hasRemoteDescription
  {
    AlwaysOrderly(events);
    DescribedExactly(events);
  }

  /** Once an answer has taken the queue, nothing is ever queued again, whatever comes after. */
  lemma {:induction false} NothingStaysQueued(events: seq<Event>, k: nat)
    requires k < |events| && events[k].QueueTaken? && Enabled(Run(events[..k]), events[k])
    ensures Run(events).hasRemoteDescription && Run(events).pendingRemote == []
  {
    AlwaysOrderly(events);
    var n := |events| - 1;
    if k < n {
      assert events[..n][..k] == events[..k];
      NothingStaysQueued(events[..n], k);
    }
  }

  /** When all that was begun is done and an answer was taken, every candidate has been applied, once. */
  lemma AllApplied(events: seq<Event>, c: Candidate)
    requires var s := Run(events);
             s.hasRemoteDescription && s.adding == {} && forall i | 0 <= i < |s.answers| :: s.answers[i] == Applying([])
    ensures Count(Run(events).applied, c) == if c < Run(events).arrived then 1 else 0
  {
    AlwaysOrderly(events);
    NoneTaken(Run(events).answers, c);
    assert Places(Run(events), c) == if c < Run(events).arrived then 1 else 0;
  }

  lemma {:induction false} NoneTaken(answers: seq<Stage>, c: Candidate)
    requires forall i | 0 <= i < |answers| :: answers[i] == Applying([])
    ensures Taken(answers, c) == 0
  {
    if answers != [] {
      NoneTaken(answers[..|answers| - 1], c);
    }
  }

  // ---- The session, one call at a time ----

  function StepAll(s: State, events: seq<Event>): State
    decreases |events|
  {
    if events == [] then s else StepAll(Step(s, events[0]), events[1..])
  }

  /** The steps of one answer's thread. */
  function AnswerEvents(answer: nat, queued: nat): seq<Event> {
    [AnswerGiven(true), QueueTaken(answer)] + seq(queued, _ => QueuedApplied(answer))
  }

  lemma {:induction false} ApplyQueue(s: State, i: nat, queue: seq<Candidate>)
    requires i < |s.answers| && s.answers[i] == Applying(queue)
    ensures StepAll(s, seq(|queue|, _ => QueuedApplied(i))) ==
            s.(applied := s.applied + queue, answers := s.answers[i := Applying([])])
    decreases |queue|
  {
    var events := seq(|queue|, _ => QueuedApplied(i));
    if queue == [] {
      assert s.applied + [] == s.applied && s.answers[i := Applying([])] == s.answers;
    } else {
      var next := Step(s, QueuedApplied(i));
      assert events[1..] == seq(|queue[1..]|, _ => QueuedApplied(i));
      ApplyQueue(next, i, queue[1..]);
      assert next.applied + queue[1..] == s.applied + queue;
      assert next.answers[i := Applying([])] == s.answers[i := Applying([])];
    }
  }

  /** An answer that nothing interrupts. */
  function AfterAnswer(s: State): State {
    s.(described := true, hasRemoteDescription := true, pendingRemote := [], answers := s.answers + [Applying([])],
       applied := s.applied + s.pendingRemote)
  }

  lemma {:induction false} AnswerIsItsSteps(s: State)
    ensures StepAll(s, AnswerEvents(|s.answers|, |s.pendingRemote|)) == AfterAnswer(s)
  {
    var i, events := |s.answers|, AnswerEvents(|s.answers|, |s.pendingRemote|);
    var given := Step(s, AnswerGiven(true));
    var taken := Step(given, QueueTaken(i));
    assert events[1..][1..] == seq(|s.pendingRemote|, _ => QueuedApplied(i));
    assert taken.answers == s.answers + [Applying(s.pendingRemote)];
    ApplyQueue(taken, i, s.pendingRemote);
    assert taken.answers[i := Applying([])] == s.answers + [Applying([])];
  }

  class PeerSession {
    var pendingRemote: seq<Candidate>
    var hasRemoteDescription: bool
    /** The candidates given to the transport. */
    var added: seq<Candidate>
    ghost var log: State

    ghost predicate Valid()
      reads this
    {
      log.pendingRemote == pendingRemote && log.hasRemoteDescription == hasRemoteDescription && log.applied == added
    }

    constructor ()
      ensures Valid() && log == START
    {
      pendingRemote, hasRemoteDescription, added, log := [], false, [], START;
    }

    /** ok: whether the transport takes the description. */
    method ApplyAnswer(ok: bool)
      requires Valid()
      modifies this
      ensures Valid() && log == if ok then AfterAnswer(old(log)) else old(log)
    {
      if !ok {
        return;
      }
      hasRemoteDescription := true;
      var queued := pendingRemote;
      pendingRemote := [];
      for i := 0 to |queued|
        invariant added == old(added) + queued[..i]
        invariant hasRemoteDescription && pendingRemote == [] && log == old(log)
      {
        added := added + [queued[i]];
      }
      assert queued[..|queued|] == queued;
      log := AfterAnswer(log);
    }

    method AddRemoteCandidate(candidate: Candidate)
      requires Valid() && candidate == log.arrived && candidate !in log.adding
      modifies this
      ensures Valid()
      ensures var arrived := Step(old(log), CandidateArrived);
              log == if old(hasRemoteDescription) then Step(arrived, CandidateApplied(candidate)) else arrived
    {
      log := Step(log, CandidateArrived);
      if !hasRemoteDescription {
        pendingRemote := pendingRemote + [candidate];
        return;
      }
      log := Step(log, CandidateApplied(candidate));
      added := added + [candidate];
    }
  }
}
