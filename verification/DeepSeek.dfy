/** One session of the DeepSeek adapter
    (integrations/deepseek-harness/src/index.js). Its handlers are asynchronous:
    a step is what one of them does between two awaits. */
module DeepSeek {
  import opened Model
  import opened Jsonl

  datatype Mark = Steered(turn: int) | TurnEnded(turn: int)

  /** How evaluating the gate ended for one stop attempt. */
  datatype GateOutcome = Allowed | Blocked | GateFailed | Aborted

  /** What the CLI prints after an ingest. */
  datatype IngestReply = IngestReply(schemaVersion: int, ingested: int, eventIds: seq<string>)

  /** A reply counts only when it acknowledges the complete batch, in order. */
  predicate Acknowledges(reply: Option<IngestReply>, batch: seq<Event>) {
    && reply.Some? && reply.value.schemaVersion == 1
    && reply.value.ingested == |batch| == |reply.value.eventIds|
    && forall i :: 0 <= i < |batch| ==> reply.value.eventIds[i] == batch[i].id
  }

  /** How the adapter reads the reply. */
  method ParseIngestResult(reply: Option<IngestReply>, batch: seq<Event>) returns (ok: bool)
    ensures ok <==> Acknowledges(reply, batch)
  {
    if reply.None? || reply.value.schemaVersion != 1 { return false; }
    if reply.value.ingested != |batch| || |reply.value.eventIds| != |batch| { return false; }
    var i := 0;
    while i < |batch|
      invariant 0 <= i <= |batch| && forall k :: 0 <= k < i ==> reply.value.eventIds[k] == batch[k].id
    {
      if reply.value.eventIds[i] != batch[i].id { return false; }
      i := i + 1;
    }
    ok := true;
  }

  // ---------- What is remembered only for the specification ----------

  ghost predicate FreshIds(events: seq<Event>) {
    forall i, j :: 0 <= i < j < |events| ==> events[i].id != events[j].id
  }

  /** The first event of every ID, in order. */
  ghost function FirstOfEach(events: seq<Event>): (r: seq<Event>)
    ensures Ids(r) == Ids(events)
  {
    if events == [] then []
    else
      var n := |events| - 1;
      var before := FirstOfEach(events[..n]);
      assert events == events[..n] + [events[n]];
      IdsOfConcat(events[..n], [events[n]]);
      IdsOfConcat(before, [events[n]]);
      assert Ids([events[n]]) == {events[n].id};
      if events[n].id in Ids(before) then before else before + [events[n]]
  }

  /** Whether the turn was steered after its last end. */
  ghost predicate SteeredSince(log: seq<Mark>, turn: int) {
    log != [] &&
    var n := |log| - 1;
    if log[n] == Steered(turn) then true
    else if log[n] == TurnEnded(turn) then false
    else SteeredSince(log[..n], turn)
  }

  /** Between two steering messages for a turn there is an end of that turn. */
  ghost predicate OncePerTurn(log: seq<Mark>) {
    forall i, j :: 0 <= i < j < |log| && log[i].Steered? && log[j] == log[i] ==> EndsBetween(log, log[i].turn, i, j)
  }

  ghost predicate EndsBetween(log: seq<Mark>, turn: int, i: nat, j: nat)
    requires i < j <= |log|
  {
    exists k :: i < k < j && log[k] == TurnEnded(turn)
  }

  lemma {:induction false} EndedSince(log: seq<Mark>, turn: int, i: nat)
    requires i < |log| && log[i] == Steered(turn) && !SteeredSince(log, turn)
    ensures EndsBetween(log, turn, i, |log|)
  {
    var n := |log| - 1;
    if log[n] != TurnEnded(turn) {
      EndedSince(log[..n], turn, i);
      var k :| i < k < n && log[..n][k] == TurnEnded(turn);
      assert log[k] == TurnEnded(turn);
    }
  }

  lemma MarkAdded(log: seq<Mark>, m: Mark, turn: int)
    ensures SteeredSince(log + [m], turn) <==> m == Steered(turn) || (m != TurnEnded(turn) && SteeredSince(log, turn))
  {
    assert (log + [m])[..|log|] == log;
  }

  lemma OneMore(log: seq<Mark>, m: Mark)
    requires OncePerTurn(log) && (m.Steered? ==> !SteeredSince(log, m.turn))
    ensures OncePerTurn(log + [m])
  {
    var log' := log + [m];
    forall i, j | 0 <= i < j < |log'| && log'[i].Steered? && log'[j] == log'[i]
        ensures EndsBetween(log', log'[i].turn, i, j) {
      if j < |log| {
        assert EndsBetween(log, log[i].turn, i, j);
        var k :| i < k < j && log[k] == TurnEnded(log[i].turn);
        assert log'[k] == log[k];
      } else {
        EndedSince(log, m.turn, i);
        var k :| i < k < |log| && log[k] == TurnEnded(m.turn);
        assert log'[k] == log[k];
      }
    }
  }

  lemma NewId(events: seq<Event>, e: Event)
    requires FreshIds(events) && e.id !in Ids(events)
    ensures FreshIds(events + [e])
  {
    assert forall i :: 0 <= i < |events| ==> events[i] in events;
  }

  // ---------- A session's state ----------

  /** Flushes form a chain: they run one after the other, in the order they were
      asked for; `results` tells how each finished one ended. `finals` are the
      flushes after which the state is dropped. The last five fields only
      remember: everything enqueued, everything ingested and removed, how long
      the history was when each flush was asked for and when it started, and
      what was steered. */
  datatype Session = Session(
    pending: seq<Event>,
    seen: set<string>,
    stopAttempts: map<int, nat>,
    steeredTurns: set<int>,
    requested: nat,
    started: nat,
    inFlight: Option<seq<Event>>,
    results: map<nat, bool>,
    finals: set<nat>,
    dropped: bool,
    history: seq<Event>,
    acknowledged: seq<Event>,
    marks: seq<nat>,
    starts: seq<nat>,
    log: seq<Mark>)

  const EMPTY := Session([], {}, map[], {}, 0, 0, None, map[], {}, false, [], [], [], [], [])

  datatype Action =
    | Observe(event: Event)
    | Flush
    | ChainStarts
    | IngestEnds(reply: Option<IngestReply>)
    | TurnEnds(turn: int)
    | StopBegins(turn: int)
    | StopEnds(turn: int, ticket: nat, gate: GateOutcome)
    | Disposes(event: Event)
    | Unloads
    | Drops(ticket: nat)

  /** The number of the next stop attempt in a turn. */
  function AttemptOf(attempts: map<int, nat>, turn: int): nat {
    (if turn in attempts then attempts[turn] else 0) + 1
  }

  function Enqueue(s: Session, event: Event): Session {
    if event.id in s.seen then s
    else s.(pending := s.pending + [event], seen := s.seen + {event.id}, history := s.history + [event])
  }

  /** `flushState`: one more flush at the end of the chain. */
  function Ask(s: Session): Session {
    s.(requested := s.requested + 1, marks := s.marks + [|s.history|])
  }

  /** The next flush takes everything pending as its batch; with nothing pending it is done. */
  function StartFlush(s: Session): Session {
    var s' := s.(started := s.started + 1, starts := s.starts + [|s.history|]);
    if s.pending == [] then s'.(results := s.results[s.started := true]) else s'.(inFlight := Some(s.pending))
  }

  predicate Ingesting(s: Session) {
    s.inFlight.Some? && s.started > 0 && |s.inFlight.value| <= |s.pending|
  }

  /** Only a complete acknowledgement removes the batch. */
  function FinishFlush(s: Session, reply: Option<IngestReply>): Session
    requires Ingesting(s)
  {
    var batch := s.inFlight.value;
    if Acknowledges(reply, batch) then
      s.(inFlight := None, results := s.results[s.started - 1 := true],
         acknowledged := s.acknowledged + batch, pending := s.pending[|batch|..])
    else s.(inFlight := None, results := s.results[s.started - 1 := false])
  }

  function TurnEnd(s: Session, turn: int): Session {
    s.(stopAttempts := s.stopAttempts - {turn}, steeredTurns := s.steeredTurns - {turn},
       log := s.log + [TurnEnded(turn)])
  }

  /** The first part of the turn-stopping handler. */
  function BeginStop(s: Session, turn: int, stopEvent: (int, nat) -> Event): Session {
    var attempt := AttemptOf(s.stopAttempts, turn);
    Ask(Enqueue(s.(stopAttempts := s.stopAttempts[turn := attempt]), stopEvent(turn, attempt)))
  }

  predicate Accepts(s: Session, ticket: nat, gate: GateOutcome)
    requires ticket in s.results
  {
    s.results[ticket] && gate == Allowed
  }

  /** The rest of that handler, once its flush has settled and, if that went
      well, the gate was asked: a stop that is neither accepted nor aborted
      steers the turn, unless that was done already. */
  function FinishStop(s: Session, turn: int, ticket: nat, gate: GateOutcome): Session
    requires ticket in s.results
  {
    if Accepts(s, ticket, gate) || gate == Aborted || turn in s.steeredTurns then s
    else s.(steeredTurns := s.steeredTurns + {turn}, log := s.log + [Steered(turn)])
  }

  /** The final flush: the state is dropped when it has settled. */
  function AskFinal(s: Session): Session {
    Ask(s).(finals := s.finals + {s.requested})
  }

  /** Steps that are not possible are skipped. A dropped state gets no more
      events or flushes, but what was asked of it before goes on. */
  function Step(s: Session, action: Action, stopEvent: (int, nat) -> Event): Session {
    match action
    case Observe(event) => if s.dropped then s else Enqueue(s, event)
    case Flush => if s.dropped then s else Ask(s)
    case ChainStarts => if s.inFlight.None? && s.started < s.requested then StartFlush(s) else s
    case IngestEnds(reply) => if Ingesting(s) then FinishFlush(s, reply) else s
    case TurnEnds(turn) => if s.dropped then s else TurnEnd(s, turn)
    case StopBegins(turn) => if s.dropped then s else BeginStop(s, turn, stopEvent)
    case StopEnds(turn, ticket, gate) => if ticket in s.results then FinishStop(s, turn, ticket, gate) else s
    case Disposes(event) => if s.dropped then s else AskFinal(Enqueue(s, event))
    case Unloads => if s.dropped then s else AskFinal(s)
    case Drops(ticket) => if ticket in s.finals && ticket in s.results then s.(dropped := true) else s
  }

  function After(s: Session, actions: seq<Action>, stopEvent: (int, nat) -> Event): Session
    decreases |actions|
  {
    if actions == [] then s else After(Step(s, actions[0], stopEvent), actions[1..], stopEvent)
  }

  /** The events an action hands to the queue. */
  function Offers(s: Session, action: Action, stopEvent: (int, nat) -> Event): seq<Event> {
    if s.dropped then []
    else
      match action
      case Observe(event) => [event]
      case StopBegins(turn) => [stopEvent(turn, AttemptOf(s.stopAttempts, turn))]
      case Disposes(event) => [event]
      case _ => []
  }

  /** Everything a run hands to the queue, in order. */
  function AllOffers(s: Session, actions: seq<Action>, stopEvent: (int, nat) -> Event): seq<Event>
    decreases |actions|
  {
    if actions == [] then []
    else Offers(s, actions[0], stopEvent) + AllOffers(Step(s, actions[0], stopEvent), actions[1..], stopEvent)
  }

  // ---------- What every step keeps ----------

  /** Nothing is lost, repeated or reordered, and what is being ingested is a
      prefix of what is pending. */
  ghost predicate QueueOk(s: Session) {
    && s.acknowledged + s.pending == s.history
    && s.seen == Ids(s.history) && FreshIds(s.history)
    && (s.inFlight.Some? ==> s.inFlight.value != [] && s.inFlight.value <= s.pending)
  }

  /** A flush covers what was enqueued before it was asked for; a successful one
      left nothing of it behind. */
  ghost predicate FlushesOk(s: Session) {
    && s.started == |s.starts| <= s.requested == |s.marks|
    && (forall k :: 0 <= k < |s.marks| ==> s.marks[k] <= |s.history|)
    && (forall k :: 0 <= k < |s.starts| ==> s.marks[k] <= s.starts[k] <= |s.history|)
    && (forall k <- s.results :: k < s.started && (s.results[k] ==> s.starts[k] <= |s.acknowledged|))
    && (forall k <- s.finals :: k < s.requested)
  }

  /** How the latest flush stands. */
  ghost predicate LatestOk(s: Session) {
    && s.started == |s.starts|
    && (s.started == 0 ==> s.acknowledged == [] && s.inFlight.None?)
    && (s.started > 0 ==>
         var last := s.started - 1;
         var n := s.starts[last];
         if s.inFlight.Some? then last !in s.results && n == |s.acknowledged| + |s.inFlight.value|
         else last in s.results && (if s.results[last] then |s.acknowledged| == n else |s.acknowledged| < n))
  }

  ghost predicate SteeringOk(s: Session) {
    OncePerTurn(s.log) && forall t :: t in s.steeredTurns <==> SteeredSince(s.log, t)
  }

  ghost predicate Valid(s: Session) {
    QueueOk(s) && FlushesOk(s) && LatestOk(s) && SteeringOk(s)
  }

  lemma EnqueueKeeps(s: Session, event: Event)
    requires Valid(s)
    ensures Valid(Enqueue(s, event))
  {
    hide OncePerTurn, SteeredSince;
    if event.id !in s.seen {
      NewId(s.history, event);
      IdsOfConcat(s.history, [event]);
      assert Ids([event]) == {event.id};
      assert s.acknowledged + (s.pending + [event]) == s.history + [event];
    }
  }

  lemma AskKeeps(s: Session)
    requires Valid(s)
    ensures Valid(Ask(s)) && Valid(AskFinal(s))
  {
    hide OncePerTurn, SteeredSince, FreshIds, Ids;
  }

  lemma StartKeeps(s: Session)
    requires Valid(s) && s.inFlight.None? && s.started < s.requested
    ensures Valid(StartFlush(s))
  {
    hide QueueOk, FlushesOk, LatestOk, OncePerTurn, SteeredSince;
    StartKeepsQueue(s);
    StartKeepsFlushes(s);
    StartIsLatest(s);
  }

  lemma StartKeepsQueue(s: Session)
    requires QueueOk(s) && s.inFlight.None?
    ensures QueueOk(StartFlush(s))
  {
    hide FreshIds, Ids;
  }

  lemma StartKeepsFlushes(s: Session)
    requires FlushesOk(s) && QueueOk(s) && s.inFlight.None? && s.started < s.requested
    ensures FlushesOk(StartFlush(s))
  {
    hide FreshIds, Ids;
    assert |s.history| == |s.acknowledged| + |s.pending|;
  }

  lemma StartIsLatest(s: Session)
    requires LatestOk(s) && FlushesOk(s) && QueueOk(s) && s.inFlight.None?
    ensures LatestOk(StartFlush(s))
  {
    hide FreshIds, Ids;
    var s' := StartFlush(s);
    assert |s.history| == |s.acknowledged| + |s.pending|;
    assert s'.starts[s'.started - 1] == |s.history| && s'.acknowledged == s.acknowledged;
  }

  lemma FinishKeeps(s: Session, reply: Option<IngestReply>)
    requires Valid(s) && s.inFlight.Some?
    ensures Ingesting(s) && s.inFlight.value <= s.pending && Valid(FinishFlush(s, reply))
  {
    hide OncePerTurn, SteeredSince, FreshIds, Ids, Acknowledges;
    var batch := s.inFlight.value;
    assert s.pending == batch + s.pending[|batch|..];
    assert s.acknowledged + s.pending == (s.acknowledged + batch) + s.pending[|batch|..];
  }

  lemma TurnEndKeeps(s: Session, turn: int)
    requires Valid(s)
    ensures Valid(TurnEnd(s, turn))
  {
    hide QueueOk, OncePerTurn, SteeredSince;
    forall t ensures SteeredSince(s.log + [TurnEnded(turn)], t) <==> t in s.steeredTurns - {turn} {
      MarkAdded(s.log, TurnEnded(turn), t);
    }
    OneMore(s.log, TurnEnded(turn));
    SameQueue(s, TurnEnd(s, turn));
  }

  lemma FinishStopKeeps(s: Session, turn: int, ticket: nat, gate: GateOutcome)
    requires Valid(s) && ticket in s.results
    ensures Valid(FinishStop(s, turn, ticket, gate))
  {
    hide QueueOk, OncePerTurn, SteeredSince;
    var s' := FinishStop(s, turn, ticket, gate);
    if s' != s {
      forall t ensures SteeredSince(s.log + [Steered(turn)], t) <==> t in s.steeredTurns + {turn} {
        MarkAdded(s.log, Steered(turn), t);
      }
      OneMore(s.log, Steered(turn));
      SameQueue(s, s');
    }
  }

  /** A dropped state is not reached any more; only what was asked of it before
      goes on. */
  lemma DroppedIsOutOfReach(s: Session, action: Action, stopEvent: (int, nat) -> Event)
    requires s.dropped && (action.Observe? || action.Flush? || action.TurnEnds? || action.StopBegins?
                           || action.Disposes? || action.Unloads?)
    ensures Step(s, action, stopEvent) == s
  {
    hide Enqueue, Ask, TurnEnd, BeginStop, AskFinal;
  }

  lemma SameQueue(s: Session, t: Session)
    requires QueueOk(s)
    requires (t.acknowledged, t.pending, t.history) == (s.acknowledged, s.pending, s.history)
    requires t.seen == s.seen && t.inFlight == s.inFlight
    ensures QueueOk(t)
  {
  }

  lemma AttemptsKeep(s: Session, attempts: map<int, nat>, dropped: bool)
    requires Valid(s)
    ensures Valid(s.(stopAttempts := attempts)) && Valid(s.(dropped := dropped))
  {
    hide OncePerTurn, SteeredSince, FreshIds, Ids;
  }

  lemma StepKeeps(s: Session, action: Action, stopEvent: (int, nat) -> Event)
    requires Valid(s)
    ensures Valid(Step(s, action, stopEvent))
  {
    hide Valid, Enqueue, StartFlush, FinishFlush, FinishStop, TurnEnd;
    match action
    case Observe(event) => EnqueueKeeps(s, event);
    case Flush => AskKeeps(s);
    case ChainStarts => if s.inFlight.None? && s.started < s.requested { StartKeeps(s); }
    case IngestEnds(reply) => if s.inFlight.Some? { FinishKeeps(s, reply); }
    case TurnEnds(turn) => TurnEndKeeps(s, turn);
    case StopBegins(turn) =>
      var attempt := AttemptOf(s.stopAttempts, turn);
      var counted := s.(stopAttempts := s.stopAttempts[turn := attempt]);
      AttemptsKeep(s, s.stopAttempts[turn := attempt], true);
      EnqueueKeeps(counted, stopEvent(turn, attempt));
      AskKeeps(Enqueue(counted, stopEvent(turn, attempt)));
    case StopEnds(turn, ticket, gate) => if ticket in s.results { FinishStopKeeps(s, turn, ticket, gate); }
    case Disposes(event) => EnqueueKeeps(s, event); AskKeeps(Enqueue(s, event));
    case Unloads => AskKeeps(s);
    case Drops(ticket) => AttemptsKeep(s, s.stopAttempts, true);
  }

  lemma EmptyIsValid()
    ensures Valid(EMPTY)
  {
    assert Ids([]) == {};
  }

  lemma Offered(offered: seq<Event>, e: Event)
    ensures FirstOfEach(offered + [e])
         == if e.id in Ids(FirstOfEach(offered)) then FirstOfEach(offered) else FirstOfEach(offered) + [e]
  {
    assert (offered + [e])[..|offered|] == offered;
  }

  lemma StepOffers(s: Session, action: Action, stopEvent: (int, nat) -> Event, offered: seq<Event>)
    requires Valid(s) && s.history == FirstOfEach(offered)
    ensures Step(s, action, stopEvent).history == FirstOfEach(offered + Offers(s, action, stopEvent))
  {
    hide FlushesOk, LatestOk, SteeringOk, FirstOfEach, FreshIds, Ids, Acknowledges;
    var added := Offers(s, action, stopEvent);
    assert offered + [] == offered;
    if added != [] { Offered(offered, added[0]); }
  }

  lemma {:induction false} RunKeeps(
    s: Session, actions: seq<Action>, stopEvent: (int, nat) -> Event, offered: seq<Event>)
    requires Valid(s) && s.history == FirstOfEach(offered)
    ensures Valid(After(s, actions, stopEvent))
    ensures After(s, actions, stopEvent).history == FirstOfEach(offered + AllOffers(s, actions, stopEvent))
    decreases |actions|
  {
    hide Valid, Step, Offers, FirstOfEach;
    if actions == [] {
      assert offered + AllOffers(s, actions, stopEvent) == offered;
    } else {
      var added := Offers(s, actions[0], stopEvent);
      var rest := AllOffers(Step(s, actions[0], stopEvent), actions[1..], stopEvent);
      StepKeeps(s, actions[0], stopEvent);
      StepOffers(s, actions[0], stopEvent, offered);
      RunKeeps(Step(s, actions[0], stopEvent), actions[1..], stopEvent, offered + added);
      assert offered + (added + rest) == (offered + added) + rest;
    }
  }

  /** In any interleaving, what was acknowledged followed by what is pending is
      every event offered, each ID once, in order; and no turn is steered twice
      without ending in between. */
  lemma Conserved(actions: seq<Action>, stopEvent: (int, nat) -> Event)
    ensures var s := After(EMPTY, actions, stopEvent);
            && Valid(s)
            && s.acknowledged + s.pending == FirstOfEach(AllOffers(EMPTY, actions, stopEvent))
            && FreshIds(s.acknowledged + s.pending) && OncePerTurn(s.log)
  {
    hide After, AllOffers, FirstOfEach, OncePerTurn, FreshIds;
    EmptyIsValid();
    NothingOffered();
    RunKeeps(EMPTY, actions, stopEvent, []);
    assert [] + AllOffers(EMPTY, actions, stopEvent) == AllOffers(EMPTY, actions, stopEvent);
  }

  lemma NothingOffered()
    ensures FirstOfEach([]) == []
  {
  }

  // ---------- What disposal loses ----------

  /** Every flush that was asked for has settled. */
  predicate Drained(s: Session) {
    s.inFlight.None? && s.started == s.requested
  }

  /** The last flush succeeded, and nothing was enqueued after it started. */
  predicate LastFlushCaughtAll(s: Session)
    requires Valid(s) && Drained(s) && s.requested > 0
  {
    var last := s.requested - 1;
    s.results[last] && s.starts[last] == |s.history|
  }

  /** Once a dropped state has settled its flushes, what is pending is lost. */
  lemma {:induction false} LostForGood(s: Session, actions: seq<Action>, stopEvent: (int, nat) -> Event)
    requires Valid(s) && s.dropped && Drained(s)
    ensures var s' := After(s, actions, stopEvent);
            s'.dropped && Drained(s') && s'.pending == s.pending && s'.acknowledged == s.acknowledged
    decreases |actions|
  {
    hide Valid;
    if actions != [] {
      StepKeeps(s, actions[0], stopEvent);
      LostForGood(Step(s, actions[0], stopEvent), actions[1..], stopEvent);
    }
  }

  lemma NothingPendingExactly(s: Session)
    requires Valid(s) && Drained(s) && s.requested > 0
    ensures s.pending == [] <==> LastFlushCaughtAll(s)
  {
    hide OncePerTurn, SteeredSince, FreshIds, Ids;
    assert |s.history| == |s.acknowledged| + |s.pending|;
  }

  /** In every interleaving: when a dropped state has settled, everything that
      was offered was acknowledged exactly when the last flush succeeded and
      nothing was enqueued after it started. */
  lemma NothingLostExactly(actions: seq<Action>, stopEvent: (int, nat) -> Event)
    requires var s := After(EMPTY, actions, stopEvent); s.dropped && Drained(s)
    ensures var s := After(EMPTY, actions, stopEvent);
            && Valid(s) && DroppedInTime(s) && s.requested > 0
            && (s.acknowledged == FirstOfEach(AllOffers(EMPTY, actions, stopEvent)) <==> LastFlushCaughtAll(s))
  {
    hide After, AllOffers, FirstOfEach, Valid, LastFlushCaughtAll;
    Conserved(actions, stopEvent);
    var s := After(EMPTY, actions, stopEvent);
    DroppedWasAsked(EMPTY, actions, stopEvent);
    NothingPendingExactly(s);
    if s.acknowledged == s.acknowledged + s.pending { assert |s.pending| == 0; }
    if s.pending == [] { assert s.acknowledged + s.pending == s.acknowledged; }
  }

  /** A state is dropped only when one of its final flushes has settled. */
  ghost predicate DroppedInTime(s: Session) {
    && (s.finals != {} ==> s.requested > 0)
    && (s.dropped ==> exists ticket <- s.finals :: ticket in s.results)
  }

  lemma {:induction false} DroppedWasAsked(s: Session, actions: seq<Action>, stopEvent: (int, nat) -> Event)
    requires DroppedInTime(s)
    ensures DroppedInTime(After(s, actions, stopEvent))
    decreases |actions|
  {
    hide Step, DroppedInTime;
    if actions != [] {
      DroppedStep(s, actions[0], stopEvent);
      DroppedWasAsked(Step(s, actions[0], stopEvent), actions[1..], stopEvent);
    }
  }

  lemma DroppedStep(s: Session, action: Action, stopEvent: (int, nat) -> Event)
    requires DroppedInTime(s)
    ensures DroppedInTime(Step(s, action, stopEvent))
  {
    hide Acknowledges;
    var s' := Step(s, action, stopEvent);
    assert s.results.Keys <= s'.results.Keys && s.finals <= s'.finals;
  }

  /** At the drop itself, when no flush was asked for after the final one:
      nothing is lost exactly when the final flush was acknowledged and nothing
      was enqueued between its start and the drop. */
  lemma FinalFlushDecides(actions: seq<Action>, stopEvent: (int, nat) -> Event, ticket: nat)
    requires var s := After(EMPTY, actions, stopEvent);
             ticket in s.finals && ticket in s.results && s.requested == ticket + 1
    ensures var s := After(EMPTY, actions, stopEvent);
            var s' := Step(s, Drops(ticket), stopEvent);
            && s'.dropped && ticket < |s.starts| && s'.pending == s.pending
            && (s'.acknowledged == FirstOfEach(AllOffers(EMPTY, actions, stopEvent))
                <==> s.results[ticket] && s.starts[ticket] == |s.history|)
  {
    hide After, AllOffers, FirstOfEach;
    Conserved(actions, stopEvent);
    var s := After(EMPTY, actions, stopEvent);
    LatestSettled(s, ticket);
    NothingPendingExactly(s);
    if s.acknowledged == s.acknowledged + s.pending { assert |s.pending| == 0; }
    if s.pending == [] { assert s.acknowledged + s.pending == s.acknowledged; }
  }

  lemma LatestSettled(s: Session, ticket: nat)
    requires Valid(s) && ticket in s.results && s.requested == ticket + 1
    ensures Drained(s) && ticket < |s.starts|
  {
    hide OncePerTurn, SteeredSince, FreshIds, Ids;
  }

  /** The reply that acknowledges a batch. */
  function FullReply(batch: seq<Event>): Option<IngestReply> {
    Some(IngestReply(1, |batch|, seq(|batch|, i requires 0 <= i < |batch| => batch[i].id)))
  }

  lemma FullReplyAcknowledges(batch: seq<Event>)
    ensures Acknowledges(FullReply(batch), batch)
  {
  }

  lemma {:induction false} AfterTwo(s: Session, a: seq<Action>, b: seq<Action>, stopEvent: (int, nat) -> Event)
    ensures After(s, a + b, stopEvent) == After(After(s, a, stopEvent), b, stopEvent)
    decreases |a|
  {
    hide Step;
    if a == [] {
      assert a + b == b;
    } else {
      assert (a + b)[1..] == a[1..] + b;
      AfterTwo(Step(s, a[0], stopEvent), a[1..], b, stopEvent);
    }
  }

  lemma AfterOne(s: Session, actions: seq<Action>, action: Action, stopEvent: (int, nat) -> Event)
    ensures After(s, actions + [action], stopEvent) == Step(After(s, actions, stopEvent), action, stopEvent)
  {
    hide Step;
    AfterTwo(s, actions, [action], stopEvent);
    var t := After(s, actions, stopEvent);
    assert [action][1..] == [];
    assert After(t, [action], stopEvent) == After(Step(t, action, stopEvent), [], stopEvent);
  }

  /** One event is observed, the session is disposed, and its only flush starts. */
  function Disposal(e: Event, end: Event): seq<Action> { [Observe(e)] + [Disposes(end)] + [ChainStarts] }

  lemma DisposalRuns(e: Event, end: Event, stopEvent: (int, nat) -> Event)
    requires e.id != end.id
    ensures var s := After(EMPTY, Disposal(e, end), stopEvent);
            && s.pending == [e, end] == s.history && s.inFlight == Some([e, end]) && s.acknowledged == []
            && s.seen == {e.id, end.id} && s.started == 1 == s.requested && s.starts == [2]
            && s.finals == {0} && s.results == map[] && !s.dropped
  {
    hide After;
    AfterOne(EMPTY, [Observe(e)] + [Disposes(end)], ChainStarts, stopEvent);
    AfterOne(EMPTY, [Observe(e)], Disposes(end), stopEvent);
    AfterOne(EMPTY, [], Observe(e), stopEvent);
    assert [] + [Observe(e)] == [Observe(e)];
    NoActions(EMPTY, stopEvent);
  }

  lemma NoActions(s: Session, stopEvent: (int, nat) -> Event)
    ensures After(s, [], stopEvent) == s
  {
  }

  /** First losing input: the final flush fails. */
  lemma LostToFailedFlush(e: Event, end: Event, stopEvent: (int, nat) -> Event)
    requires e.id != end.id
    ensures var s := After(EMPTY, Disposal(e, end) + [IngestEnds(None)] + [Drops(0)], stopEvent);
            s.dropped && Drained(s) && s.acknowledged == [] && s.pending == [e, end]
  {
    hide After;
    DisposalRuns(e, end, stopEvent);
    AfterOne(EMPTY, Disposal(e, end), IngestEnds(None), stopEvent);
    AfterOne(EMPTY, Disposal(e, end) + [IngestEnds(None)], Drops(0), stopEvent);
  }

  function LateEvent(e: Event, end: Event, late: Event): seq<Action> {
    Disposal(e, end) + [Observe(late)]
  }

  lemma LateEventRuns(e: Event, end: Event, late: Event, stopEvent: (int, nat) -> Event)
    requires e.id != end.id && late.id != e.id && late.id != end.id
    ensures After(EMPTY, LateEvent(e, end, late), stopEvent)
         == Enqueue(After(EMPTY, Disposal(e, end), stopEvent), late)
  {
    hide After;
    DisposalRuns(e, end, stopEvent);
    AfterOne(EMPTY, Disposal(e, end), Observe(late), stopEvent);
  }

  /** Second losing input: the final flush is acknowledged completely, but an
      event arrived while it was on its way. */
  lemma LostWhileFlushing(e: Event, end: Event, late: Event, stopEvent: (int, nat) -> Event)
    requires e.id != end.id && late.id != e.id && late.id != end.id
    ensures var reply := FullReply([e, end]);
            var s := After(EMPTY, LateEvent(e, end, late) + [IngestEnds(reply)] + [Drops(0)], stopEvent);
            s.dropped && Drained(s) && s.results == map[0 := true] && s.acknowledged == [e, end] && s.pending == [late]
  {
    hide After, FullReply, Acknowledges;
    var reply := FullReply([e, end]);
    DisposalRuns(e, end, stopEvent);
    LateEventRuns(e, end, late, stopEvent);
    FullReplyAcknowledges([e, end]);
    AfterOne(EMPTY, LateEvent(e, end, late), IngestEnds(reply), stopEvent);
    AfterOne(EMPTY, LateEvent(e, end, late) + [IngestEnds(reply)], Drops(0), stopEvent);
  }

  /** A flush that was asked for before the drop goes on after it, and can still
      save what arrived during the final one. */
  lemma LaterFlushSaves(e: Event, end: Event, late: Event, stopEvent: (int, nat) -> Event)
    requires e.id != end.id && late.id != e.id && late.id != end.id
    ensures var flushing := LateEvent(e, end, late) + [Flush] + [IngestEnds(FullReply([e, end]))] + [Drops(0)];
            var s := After(EMPTY, flushing + [ChainStarts] + [IngestEnds(FullReply([late]))], stopEvent);
            && After(EMPTY, flushing, stopEvent).pending == [late]
            && s.dropped && Drained(s) && s.pending == []
  {
    hide After, FullReply, Acknowledges;
    var first, second := FullReply([e, end]), FullReply([late]);
    DisposalRuns(e, end, stopEvent);
    LateEventRuns(e, end, late, stopEvent);
    FullReplyAcknowledges([e, end]);
    FullReplyAcknowledges([late]);
    var asked := LateEvent(e, end, late) + [Flush];
    AfterOne(EMPTY, LateEvent(e, end, late), Flush, stopEvent);
    AfterOne(EMPTY, asked, IngestEnds(first), stopEvent);
    AfterOne(EMPTY, asked + [IngestEnds(first)], Drops(0), stopEvent);
    var dropped := asked + [IngestEnds(first)] + [Drops(0)];
    AfterOne(EMPTY, dropped, ChainStarts, stopEvent);
    AfterOne(EMPTY, dropped + [ChainStarts], IngestEnds(second), stopEvent);
  }

  // ---------- The adapter's state object ----------

  class SessionState {
    var pending: seq<Event>
    var seen: set<string>
    var stopAttempts: map<int, nat>
    var steeredTurns: set<int>
    var requested: nat
    var started: nat
    var inFlight: Option<seq<Event>>
    var results: map<nat, bool>
    ghost var model: Session

    ghost predicate Represents()
      reads this
    {
      && Valid(model)
      && (pending, seen) == (model.pending, model.seen)
      && (stopAttempts, steeredTurns) == (model.stopAttempts, model.steeredTurns)
      && (requested, started, inFlight, results) == (model.requested, model.started, model.inFlight, model.results)
    }

    constructor ()
      ensures Represents() && model == EMPTY
    {
      pending, seen, stopAttempts, steeredTurns := [], {}, map[], {};
      requested, started, inFlight, results := 0, 0, None, map[];
      model := EMPTY;
      new;
      EmptyIsValid();
    }

    /** `session/event`: one more event for the queue. */
    method Add(event: Event, ghost stopEvent: (int, nat) -> Event) returns (added: bool)
      requires Represents() && !model.dropped
      modifies this`pending, this`seen, this`model
      ensures Represents() && model == Step(old(model), Observe(event), stopEvent)
      ensures added <==> event.id !in old(seen)
      ensures pending == old(pending) + (if added then [event] else []) && seen == old(seen) + {event.id}
    {
      hide Valid;
      EnqueueKeeps(model, event);
      if event.id in seen { return false; }
      seen := seen + {event.id};
      pending := pending + [event];
      model := Enqueue(model, event);
      added := true;
    }

    /** `session/flush` */
    method RequestFlush(ghost stopEvent: (int, nat) -> Event) returns (ticket: nat)
      requires Represents() && !model.dropped
      modifies this`requested, this`model
      ensures Represents() && model == Step(old(model), Flush, stopEvent) && ticket == old(requested)
      ensures requested == old(requested) + 1
    {
      hide Valid;
      AskKeeps(model);
      ticket := requested;
      requested := requested + 1;
      model := Ask(model);
    }

    /** The flush before has settled: the next one takes what is pending now. */
    method ChainStart(ghost stopEvent: (int, nat) -> Event)
      requires Represents() && inFlight.None? && started < requested
      modifies this`started, this`inFlight, this`results, this`model
      ensures Represents() && model == Step(old(model), ChainStarts, stopEvent)
      ensures inFlight == if pending == [] then None else Some(pending)
      ensures results == if pending == [] then old(results)[old(started) := true] else old(results)
    {
      hide Valid;
      StartKeeps(model);
      model := StartFlush(model);
      started := started + 1;
      if pending == [] {
        results := results[started - 1 := true];
        return;
      }
      inFlight := Some(pending);
    }

    /** The ingest of the batch replied, or failed. */
    method IngestEnd(reply: Option<IngestReply>, ghost stopEvent: (int, nat) -> Event)
      requires Represents() && inFlight.Some?
      modifies this`pending, this`inFlight, this`results, this`model
      ensures Represents() && Ingesting(old(model)) && model == Step(old(model), IngestEnds(reply), stopEvent)
      ensures old(pending) == (if Acknowledges(reply, old(inFlight).value) then old(inFlight).value else []) + pending
      ensures started > 0 && results == old(results)[started - 1 := Acknowledges(reply, old(inFlight).value)]
    {
      hide Valid, Acknowledges;
      FinishKeeps(model, reply);
      model := FinishFlush(model, reply);
      var batch := inFlight.value;
      var ok := ParseIngestResult(reply, batch);
      inFlight, results := None, results[started - 1 := ok];
      if ok { pending := pending[|batch|..]; }
    }

    /** `turn/end` */
    method EndTurn(turn: int, ghost stopEvent: (int, nat) -> Event)
      requires Represents() && !model.dropped
      modifies this`stopAttempts, this`steeredTurns, this`model
      ensures Represents() && model == Step(old(model), TurnEnds(turn), stopEvent)
      ensures stopAttempts == old(stopAttempts) - {turn} && steeredTurns == old(steeredTurns) - {turn}
    {
      hide Valid;
      TurnEndKeeps(model, turn);
      stopAttempts := stopAttempts - {turn};
      steeredTurns := steeredTurns - {turn};
      model := TurnEnd(model, turn);
    }

    /** The first part of the turn-stopping handler: count the attempt, record
        it and ask for a flush. */
    method StopBegin(turn: int, stopEvent: (int, nat) -> Event) returns (ticket: nat)
      requires Represents() && !model.dropped
      modifies this
      ensures Represents() && model == Step(old(model), StopBegins(turn), stopEvent) && ticket == old(requested)
    {
      hide Valid;
      var attempt := 1;
      if turn in stopAttempts { attempt := stopAttempts[turn] + 1; }
      AttemptsKeep(model, stopAttempts[turn := attempt], model.dropped);
      stopAttempts := stopAttempts[turn := attempt];
      model := model.(stopAttempts := stopAttempts);
      var added := Add(stopEvent(turn, attempt), stopEvent);
      ticket := RequestFlush(stopEvent);
    }

    /** The rest of the handler. A stop that is neither accepted nor aborted
        steers the turn once; an accepted one left nothing behind that was
        enqueued before its flush was asked for. */
    method StopEnd(turn: int, ticket: nat, gate: GateOutcome, ghost stopEvent: (int, nat) -> Event)
        returns (accepted: bool)
      requires Represents() && ticket in results
      modifies this`steeredTurns, this`model
      ensures Represents() && model == Step(old(model), StopEnds(turn, ticket, gate), stopEvent)
      ensures accepted <==> results[ticket] && gate == Allowed
      ensures accepted ==> ticket < |model.marks| && model.marks[ticket] <= |model.acknowledged|
      ensures model.log == old(model).log + (
                if !accepted && gate != Aborted && turn !in old(steeredTurns) then [Steered(turn)] else [])
    {
      hide Valid;
      FinishStopKeeps(model, turn, ticket, gate);
      SuccessCovers(model, ticket);
      model := FinishStop(model, turn, ticket, gate);
      if gate == Aborted { return false; }
      if results[ticket] && gate == Allowed { return true; }
      if turn !in steeredTurns { steeredTurns := steeredTurns + {turn}; }
      accepted := false;
    }

    /** `session/disposed`: the end event, and the flush after which the state is dropped. */
    method Dispose(event: Event, ghost stopEvent: (int, nat) -> Event) returns (ticket: nat)
      requires Represents() && !model.dropped
      modifies this`pending, this`seen, this`requested, this`model
      ensures Represents() && model == Step(old(model), Disposes(event), stopEvent) && ticket == old(requested)
      ensures ticket in model.finals
    {
      hide Valid;
      EnqueueKeeps(model, event);
      AskKeeps(Enqueue(model, event));
      var added := Add(event, stopEvent);
      ghost var before := model;
      ticket := RequestFlush(stopEvent);
      model := AskFinal(before);
    }

    /** Unloading the adapter asks every state in use for a last flush. */
    method Unload(ghost stopEvent: (int, nat) -> Event) returns (ticket: nat)
      requires Represents() && !model.dropped
      modifies this`requested, this`model
      ensures Represents() && model == Step(old(model), Unloads, stopEvent) && ticket == old(requested)
      ensures ticket in model.finals && pending == old(pending)
    {
      hide Valid;
      AskKeeps(model);
      ghost var before := model;
      ticket := RequestFlush(stopEvent);
      model := AskFinal(before);
    }
  }

  /** A successful flush acknowledged everything enqueued before it was asked for. */
  lemma SuccessCovers(s: Session, ticket: nat)
    requires Valid(s) && ticket in s.results
    ensures s.results[ticket] ==> ticket < |s.marks| && s.marks[ticket] <= |s.acknowledged|
  {
    hide OncePerTurn, SteeredSince, FreshIds, Ids;
  }
}
