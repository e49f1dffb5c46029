/** A session of the DeepSeek adapter together with the ledger it delivers to:
    every flush runs one `beforedone adapter ingest`
    (internal/adapter/adapter.go), which is one writer among others. */
module Delivery {
  import opened Model
  import opened Jsonl
  import opened LedgerProtocol
  import D = DeepSeek
  import L = LedgerRuns

  /** What is fixed in a run: file contents, what the command makes of an event
      before storing it (one that cannot be stored when it refuses the event),
      and the event of a stop attempt. */
  datatype Cli = Cli(files: Files, normalize: Event -> Event, stopEvent: (int, nat) -> Event)
  {
    function Stored(batch: seq<Event>): (r: seq<Event>)
      ensures |r| == |batch|
    {
      seq(|batch|, i requires 0 <= i < |batch| => normalize(batch[i]))
    }
  }

  /** `writer` is the command that carries the batch in flight. */
  datatype World = World(session: D.Session, ledger: L.System, writer: Option<nat>)

  /** `Handles` is a handler of the adapter, `Stores` a step of any writer. The
      command ends, with or without its reply being seen, at any time: its writer
      may be waiting, done, failed, or still running. */
  datatype Action =
    | Handles(handler: D.Action)
    | Submits(pid: nat)
    | Stores(step: L.Action)
    | Replies(lost: bool)

  /** The command lists what it stored once the append succeeded. */
  function Reply(c: Cli, w: World, lost: bool): Option<D.IngestReply>
    requires w.session.inFlight.Some?
  {
    if !lost && w.writer.Some? && w.writer.value in w.ledger.writers
       && w.ledger.writers[w.writer.value].phase == L.Succeeded
    then D.FullReply(c.Stored(w.session.inFlight.value)) else None
  }

  function Submit(c: Cli, w: World, pid: nat): World
    requires w.session.inFlight.Some?
  {
    var stored := c.Stored(w.session.inFlight.value);
    var ledger := L.Step(c.files, w.ledger, L.Arrive(pid, stored));
    if w.writer.None? && pid !in w.ledger.writers && pid in ledger.writers
    then w.(ledger := ledger, writer := Some(pid)) else w
  }

  function Step(c: Cli, w: World, action: Action): World {
    match action
    case Handles(handler) =>
      if handler.IngestEnds? then w else w.(session := D.Step(w.session, handler, c.stopEvent))
    case Submits(pid) => if w.session.inFlight.Some? then Submit(c, w, pid) else w
    case Stores(step) => w.(ledger := L.Step(c.files, w.ledger, step))
    case Replies(lost) =>
      if D.Ingesting(w.session)
      then w.(session := D.FinishFlush(w.session, Reply(c, w, lost)), writer := None) else w
  }

  function Run(c: Cli, w: World, run: seq<Action>): World
    decreases |run|
  {
    if run == [] then w else Run(c, Step(c, w, run[0]), run[1..])
  }

  /** What the session sees of a run. */
  function Seen(c: Cli, w: World, run: seq<Action>): seq<D.Action>
    decreases |run|
  {
    if run == [] then [] else SeenStep(c, w, run[0]) + Seen(c, Step(c, w, run[0]), run[1..])
  }

  function SeenStep(c: Cli, w: World, action: Action): seq<D.Action> {
    match action
    case Handles(handler) => if handler.IngestEnds? then [] else [handler]
    case Replies(lost) => if D.Ingesting(w.session) then [D.IngestEnds(Reply(c, w, lost))] else []
    case _ => []
  }

  // ---------- What every step keeps ----------

  /** The stored form of every acknowledged event is in the log, under its ID. */
  ghost predicate AllDelivered(c: Cli, w: World) {
    forall e <- w.session.acknowledged :: c.normalize(e).id == e.id && c.normalize(e) in Log(c.files, w.ledger.disk)
  }

  ghost predicate CarriesBatch(c: Cli, w: World) {
    w.writer.Some? ==>
      && w.session.inFlight.Some? && w.writer.value in w.ledger.writers
      && w.ledger.writers[w.writer.value].batch == c.Stored(w.session.inFlight.value)
  }

  ghost predicate WorldOk(c: Cli, base: seq<Event>, w: World) {
    && D.Valid(w.session) && L.Safe(c.files, base, w.ledger)
    && CarriesBatch(c, w) && AllDelivered(c, w)
  }

  ghost predicate SameIds(c: Cli, batch: seq<Event>) {
    forall e <- batch :: c.normalize(e).id == e.id
  }

  /** The batch is acknowledged only when the command changed none of its IDs. */
  lemma ReplyAcknowledges(c: Cli, batch: seq<Event>)
    ensures D.Acknowledges(D.FullReply(c.Stored(batch)), batch) <==> SameIds(c, batch)
  {
    var stored := c.Stored(batch);
    if SameIds(c, batch) {
      assert forall i :: 0 <= i < |batch| ==> batch[i] in batch && stored[i].id == batch[i].id;
    }
    if D.Acknowledges(D.FullReply(stored), batch) {
      forall e <- batch ensures c.normalize(e).id == e.id {
        var i :| 0 <= i < |batch| && batch[i] == e;
        assert stored[i] == c.normalize(e);
      }
    }
  }

  /** The log and its size only grow. */
  lemma LogGrows(f: Files, base: seq<Event>, sys: L.System, action: L.Action)
    requires FilesOk(f) && L.Safe(f, base, sys)
    ensures var sys' := L.Step(f, sys, action);
            Log(f, sys.disk) <= Log(f, sys'.disk) && LogBytes(sys.disk) <= LogBytes(sys'.disk)
  {
    hide FilesOk, Inv, Log, LogBytes, ReconcilePlan, Accepts, IndexPlan, L.CommitsOk, Apply;
    match action
    case Perform(pid) =>
      if L.Holds(sys, pid) {
        L.PerformKeeps(f, base, sys, pid);
        PerformBytes(f, base, sys, pid);
      }
    case Commit(pid) => if L.Holds(sys, pid) { CommitGrows(f, base, sys, pid); }
    case _ =>
  }

  lemma PerformBytes(f: Files, base: seq<Event>, sys: L.System, pid: nat)
    requires FilesOk(f) && L.Safe(f, base, sys) && L.Holds(sys, pid)
    ensures LogBytes(L.PerformStep(f, sys, pid).disk) == LogBytes(sys.disk)
  {
    hide FilesOk, Inv, Log, LogBytes, ReconcilePlan, L.CommitsOk, Apply;
    var w := sys.writers[pid];
    if w.phase.rest != [] && Enabled(f, sys.disk, w.phase.rest[0]) { LogBytesKept(f, sys.disk); }
  }

  lemma CommitGrows(f: Files, base: seq<Event>, sys: L.System, pid: nat)
    requires FilesOk(f) && L.Safe(f, base, sys) && L.Holds(sys, pid)
    ensures var w, sys' := sys.writers[pid], L.CommitAction(f, sys, pid);
            && (sys' != sys ==> Fits(f, sys.disk, w.batch) && Log(f, sys'.disk) == Log(f, sys.disk) + w.batch)
            && LogBytes(sys.disk) <= LogBytes(sys'.disk)
  {
    hide Inv, Log, ReconcilePlan, L.CommitsOk, IndexPlan;
    var w, data := sys.writers[pid], Encoded(f, sys.writers[pid].batch);
    if w.phase == L.Recovering([]) && Accepts(f, sys.disk, w.batch, data) {
      assert f.Read(data) == Some(w.batch) && data != [];
      hide FilesOk, Accepts, L.WritersOk;
      CommitStep(f, sys.disk, w.batch, data);
      AcceptedFits(f, sys.disk, w.batch, data);
      QuietBytes(f, sys.disk);
      UptoSame(f, sys.disk.segments, sys.disk.segments + [data], |sys.disk.segments|);
    }
  }

  /** Every event of a committed batch is in the log. */
  lemma {:induction false} BatchCommitted(writers: map<nat, L.Writer>, commits: seq<nat>, pid: nat)
    requires (forall p <- commits :: p in writers) && pid in commits
    ensures forall e <- writers[pid].batch :: e in L.Batches(writers, commits)
  {
    var n := |commits| - 1;
    if commits[n] != pid { BatchCommitted(writers, commits[..n], pid); }
  }

  lemma CommittedInLog(f: Files, base: seq<Event>, sys: L.System, pid: nat)
    requires L.Safe(f, base, sys) && pid in sys.commits
    ensures pid in sys.writers && forall e <- sys.writers[pid].batch :: e in Log(f, sys.disk)
  {
    hide Inv, Log, L.WritersOk, L.Batches;
    BatchCommitted(sys.writers, sys.commits, pid);
  }

  lemma HandlesKeeps(c: Cli, base: seq<Event>, w: World, handler: D.Action)
    requires WorldOk(c, base, w) && !handler.IngestEnds?
    ensures WorldOk(c, base, Step(c, w, Handles(handler)))
  {
    hide D.Valid, L.Safe, Log;
    D.StepKeeps(w.session, handler, c.stopEvent);
    HandlersKeepBatch(w.session, handler, c.stopEvent, w.writer.Some?);
  }

  /** A handler neither acknowledges anything nor touches a batch in flight. */
  lemma HandlersKeepBatch(s: D.Session, handler: D.Action, stopEvent: (int, nat) -> Event, busy: bool)
    requires !handler.IngestEnds?
    ensures var s' := D.Step(s, handler, stopEvent);
            s'.acknowledged == s.acknowledged && (s.inFlight.Some? ==> s'.inFlight == s.inFlight)
  {
  }

  lemma SubmitsKeeps(c: Cli, base: seq<Event>, w: World, pid: nat)
    requires FilesOk(c.files) && WorldOk(c, base, w) && w.session.inFlight.Some?
    ensures WorldOk(c, base, Submit(c, w, pid))
  {
    hide D.Valid, L.Safe, Log, FilesOk;
    var arrives := L.Arrive(pid, c.Stored(w.session.inFlight.value));
    L.StepKeeps(c.files, base, w.ledger, arrives);
  }

  lemma StoresKeeps(c: Cli, base: seq<Event>, w: World, step: L.Action)
    requires FilesOk(c.files) && WorldOk(c, base, w)
    ensures WorldOk(c, base, Step(c, w, Stores(step)))
  {
    hide D.Valid, L.Safe, Log, FilesOk;
    L.StepKeeps(c.files, base, w.ledger, step);
    LogGrows(c.files, base, w.ledger, step);
    BatchesStay(c.files, w.ledger, step);
  }

  lemma BatchesStay(f: Files, sys: L.System, step: L.Action)
    ensures forall pid <- sys.writers ::
              pid in L.Step(f, sys, step).writers && L.Step(f, sys, step).writers[pid].batch == sys.writers[pid].batch
  {
    hide ReconcilePlan, IndexPlan, Accepts, Encoded, Apply;
  }

  lemma RepliesKeeps(c: Cli, base: seq<Event>, w: World, lost: bool)
    requires WorldOk(c, base, w) && D.Ingesting(w.session)
    ensures WorldOk(c, base, Step(c, w, Replies(lost)))
  {
    hide L.Safe, Log, D.FlushesOk, D.LatestOk, D.SteeringOk, D.FreshIds, D.Acknowledges, D.FullReply;
    D.FinishKeeps(w.session, Reply(c, w, lost));
    var batch := w.session.inFlight.value;
    if D.Acknowledges(Reply(c, w, lost), batch) {
      NoReply(batch);
      ReplyAcknowledges(c, batch);
      SucceededInLog(c, base, w);
      forall e <- batch ensures c.normalize(e) in Log(c.files, w.ledger.disk) {
        var i :| 0 <= i < |batch| && batch[i] == e;
        assert c.Stored(batch)[i] in c.Stored(batch);
      }
    }
  }

  lemma NoReply(batch: seq<Event>)
    ensures !D.Acknowledges(None, batch)
  {
  }

  lemma SucceededInLog(c: Cli, base: seq<Event>, w: World)
    requires L.Safe(c.files, base, w.ledger) && CarriesBatch(c, w) && w.writer.Some?
    requires w.ledger.writers[w.writer.value].phase == L.Succeeded
    ensures forall e <- c.Stored(w.session.inFlight.value) :: e in Log(c.files, w.ledger.disk)
  {
    hide Inv, Log, L.CommitsOk;
    assert w.writer.value in w.ledger.commits;
    CommittedInLog(c.files, base, w.ledger, w.writer.value);
  }

  lemma StepKeeps(c: Cli, base: seq<Event>, w: World, action: Action)
    requires FilesOk(c.files) && WorldOk(c, base, w)
    ensures WorldOk(c, base, Step(c, w, action))
  {
    hide FilesOk, WorldOk, D.Step, L.Step, D.FinishFlush;
    match action
    case Handles(handler) => if !handler.IngestEnds? { HandlesKeeps(c, base, w, handler); }
    case Submits(pid) => if w.session.inFlight.Some? { SubmitsKeeps(c, base, w, pid); }
    case Stores(step) => StoresKeeps(c, base, w, step);
    case Replies(lost) => if D.Ingesting(w.session) { RepliesKeeps(c, base, w, lost); }
  }

  /** Before anything happened: a new session, and a healthy store. */
  ghost predicate Start(c: Cli, w: World) {
    w.session == D.EMPTY && L.Start(c.files, w.ledger) && w.writer.None?
  }

  lemma {:induction false} RunKeeps(c: Cli, base: seq<Event>, w: World, run: seq<Action>)
    requires FilesOk(c.files) && WorldOk(c, base, w)
    ensures WorldOk(c, base, Run(c, w, run))
    ensures Run(c, w, run).session == D.After(w.session, Seen(c, w, run), c.stopEvent)
    decreases |run|
  {
    hide FilesOk, WorldOk, Step, D.Step, SeenStep;
    if run != [] {
      StepKeeps(c, base, w, run[0]);
      RunKeeps(c, base, Step(c, w, run[0]), run[1..]);
      SeenStepIsStep(c, w, run[0]);
      D.AfterTwo(w.session, SeenStep(c, w, run[0]), Seen(c, Step(c, w, run[0]), run[1..]), c.stopEvent);
    }
  }

  lemma SeenStepIsStep(c: Cli, w: World, action: Action)
    ensures D.After(w.session, SeenStep(c, w, action), c.stopEvent) == Step(c, w, action).session
  {
    hide L.Step, D.After, D.FinishFlush, Reply;
    var seen := SeenStep(c, w, action);
    D.NoActions(w.session, c.stopEvent);
    if seen != [] {
      D.AfterOne(w.session, [], seen[0], c.stopEvent);
      assert [] + [seen[0]] == seen;
    }
  }

  /** End to end, in any run of handlers, commands and writers, kills and lost
      replies: every event that was offered is still pending, or its stored form
      is in the ledger under its ID; and no ID is in the ledger twice. */
  lemma EndToEnd(c: Cli, w: World, run: seq<Action>)
    requires FilesOk(c.files) && Start(c, w)
    ensures var w', offers := Run(c, w, run), D.AllOffers(D.EMPTY, Seen(c, w, run), c.stopEvent);
            && w'.session.acknowledged + w'.session.pending == D.FirstOfEach(offers)
            && AllDelivered(c, w') && DistinctIds(Log(c.files, w'.ledger.disk))
  {
    hide FilesOk, D.Valid, D.FirstOfEach, D.AllOffers, D.After, L.Safe, L.Start, Log, Run, Seen, DistinctIds;
    D.EmptyIsValid();
    StartIsSafe(c.files, w.ledger);
    RunKeeps(c, Log(c.files, w.ledger.disk), w, run);
    D.Conserved(Seen(c, w, run), c.stopEvent);
    LogDistinct(c.files, Log(c.files, w.ledger.disk), Run(c, w, run).ledger);
  }

  lemma StartIsSafe(f: Files, sys: L.System)
    requires FilesOk(f) && L.Start(f, sys)
    ensures L.Safe(f, Log(f, sys.disk), sys)
  {
    hide FilesOk;
    L.EveryRunSafe(f, sys, [], 0);
  }

  lemma LogDistinct(f: Files, base: seq<Event>, sys: L.System)
    requires FilesOk(f) && L.Safe(f, base, sys)
    ensures DistinctIds(Log(f, sys.disk))
  {
    hide DistinctIds, Upto, L.WritersOk, L.CommitsOk, ClaimsCorrect, StateOk;
    DistinctEmpty();
  }

  lemma DistinctEmpty()
    ensures DistinctIds([])
  {
    assert Ids([]) == {};
  }

  // ---------- When a flush can succeed ----------

  ghost predicate Reaches(c: Cli, w: World, w': World) {
    exists run :: Run(c, w, run) == w'
  }

  lemma {:induction false} RunConcat(c: Cli, w: World, a: seq<Action>, b: seq<Action>)
    ensures Run(c, w, a + b) == Run(c, Run(c, w, a), b)
    decreases |a|
  {
    hide Step;
    if a == [] {
      assert a + b == b;
    } else {
      assert (a + b)[1..] == a[1..] + b;
      RunConcat(c, Step(c, w, a[0]), a[1..], b);
    }
  }

  lemma ReachesThen(c: Cli, w: World, v: World, action: Action)
    requires Reaches(c, w, v)
    ensures Reaches(c, w, Step(c, v, action))
  {
    hide Step;
    var run :| Run(c, w, run) == v;
    RunConcat(c, w, run, [action]);
    assert [action][1..] == [];
    assert Run(c, v, [action]) == Run(c, Step(c, v, action), []);
    assert Run(c, w, run + [action]) == Step(c, v, action);
  }

  lemma {:induction false} ReachesAlone(c: Cli, w: World, v: World, pid: nat, n: nat)
    requires Reaches(c, w, v)
    ensures Reaches(c, w, v.(ledger := L.RunAlone(c.files, v.ledger, pid, n)))
    decreases n
  {
    hide Reaches, L.Step;
    if n > 0 {
      ReachesThen(c, w, v, Stores(L.Perform(pid)));
      ReachesAlone(c, w, Step(c, v, Stores(L.Perform(pid))), pid, n - 1);
    }
  }

  lemma ReachesAppend(c: Cli, w: World, v: World, pid: nat)
    requires Reaches(c, w, v)
    ensures Reaches(c, w, v.(ledger := L.AppendAlone(c.files, v.ledger, pid)))
  {
    hide Reaches, L.Step, L.RunAlone, L.Remaining;
    var f := c.files;
    ReachesThen(c, w, v, Stores(L.Acquire(pid)));
    var locked := L.Step(f, v.ledger, L.Acquire(pid));
    ReachesAlone(c, w, v.(ledger := locked), pid, L.Remaining(locked, pid));
    var recovered := L.RunAlone(f, locked, pid, L.Remaining(locked, pid));
    ReachesThen(c, w, v.(ledger := recovered), Stores(L.Commit(pid)));
    var committed := L.Step(f, recovered, L.Commit(pid));
    ReachesAlone(c, w, v.(ledger := committed), pid, L.Remaining(committed, pid));
    var indexed := L.RunAlone(f, committed, pid, L.Remaining(committed, pid));
    ReachesThen(c, w, v.(ledger := indexed), Stores(L.Finish(pid)));
    ReachesThen(c, w, v.(ledger := L.Step(f, indexed, L.Finish(pid))), Stores(L.Reject(pid)));
  }

  predicate Succeeded(s: D.Session, flush: nat) { flush in s.results && s.results[flush] }

  /** A flush whose command was not started yet: the batch is normalized under
      its own IDs, can be encoded, and fits the ledger as it is now. */
  ghost predicate Deliverable(c: Cli, w: World)
    requires w.session.inFlight.Some?
  {
    var batch := w.session.inFlight.value;
    SameIds(c, batch) && c.files.Encode(c.Stored(batch)).Some? && Fits(c.files, w.ledger.disk, c.Stored(batch))
  }

  ghost function Largest(pids: set<nat>): (m: nat)
    ensures forall p <- pids :: p <= m
  {
    if pids == {} then 0
    else
      var p :| p in pids;
      var m := Largest(pids - {p});
      assert forall q <- pids :: q == p || q in pids - {p};
      if p > m then p else m
  }

  /** Whoever holds the lock may be killed; that changes nothing else. */
  lemma LockFreed(c: Cli, base: seq<Event>, w: World) returns (free: World)
    requires FilesOk(c.files) && WorldOk(c, base, w)
    ensures WorldOk(c, base, free) && Reaches(c, w, free) && free.ledger.lock.None?
    ensures (free.session, free.writer, free.ledger.disk) == (w.session, w.writer, w.ledger.disk)
  {
    hide FilesOk, D.Valid, AllDelivered, Inv, L.CommitsOk, ReconcilePlan, Reaches;
    ReachesSelf(c, w);
    free := w;
    if w.ledger.lock.Some? {
      var stop := Stores(L.Stop(w.ledger.lock.value));
      StepKeeps(c, base, w, stop);
      ReachesThen(c, w, w, stop);
      free := Step(c, w, stop);
    }
  }

  lemma ReachesSelf(c: Cli, w: World)
    ensures Reaches(c, w, w)
  {
    assert Run(c, w, []) == w;
  }

  lemma CommandStarts(c: Cli, base: seq<Event>, w: World) returns (pid: nat)
    requires FilesOk(c.files) && WorldOk(c, base, w) && w.session.inFlight.Some? && w.writer.None?
    requires c.files.Encode(c.Stored(w.session.inFlight.value)).Some?
    ensures var sent := Step(c, w, Submits(pid));
            && WorldOk(c, base, sent) && sent.session == w.session && sent.writer == Some(pid)
            && sent.ledger.lock == w.ledger.lock && sent.ledger.disk == w.ledger.disk
            && pid in sent.ledger.writers
            && sent.ledger.writers[pid] == L.Writer(c.Stored(w.session.inFlight.value), L.Waiting)
  {
    hide FilesOk, AllDelivered, L.Safe, D.FlushesOk, D.LatestOk, D.SteeringOk, D.FreshIds;
    pid := Largest(w.ledger.writers.Keys) + 1;
    assert pid !in w.ledger.writers.Keys;
    StepKeeps(c, base, w, Submits(pid));
  }

  lemma ReplyArrives(c: Cli, w: World, pid: nat)
    requires D.Ingesting(w.session) && w.writer == Some(pid) && SameIds(c, w.session.inFlight.value)
    requires pid in w.ledger.writers && w.ledger.writers[pid].phase == L.Succeeded
    ensures Succeeded(Step(c, w, Replies(false)).session, w.session.started - 1)
  {
    hide D.Acknowledges, D.FullReply, SameIds;
    ReplyAcknowledges(c, w.session.inFlight.value);
  }

  /** Left alone, a deliverable batch is delivered. */
  lemma DeliverableSucceeds(c: Cli, base: seq<Event>, w: World)
    requires FilesOk(c.files) && WorldOk(c, base, w)
    requires w.session.inFlight.Some? && w.writer.None? && Deliverable(c, w)
    requires KeysInjective(c.files, Ids(Log(c.files, w.ledger.disk)) + Ids(c.Stored(w.session.inFlight.value)))
    ensures D.Ingesting(w.session)
    ensures exists w' :: Reaches(c, w, w') && Succeeded(w'.session, w.session.started - 1)
  {
    hide FilesOk, Step, Reaches, Fits, Log, D.Valid, D.Ingesting, L.Safe, L.AppendAlone, KeysInjective;
    hide Succeeded, SameIds;
    D.FinishKeeps(w.session, None);
    var free := LockFreed(c, base, w);
    var pid := CommandStarts(c, base, free);
    var sent := Step(c, free, Submits(pid));
    ReachesThen(c, w, free, Submits(pid));
    L.AppendNeverWedges(c.files, base, sent.ledger, pid);
    ReachesAppend(c, w, sent, pid);
    var done := sent.(ledger := L.AppendAlone(c.files, sent.ledger, pid));
    ReachesThen(c, w, done, Replies(false));
    ReplyArrives(c, done, pid);
  }

  /** How a flush ended never changes. */
  lemma ResultsStay(s: D.Session, action: D.Action, stopEvent: (int, nat) -> Event, flush: nat)
    requires D.Valid(s) && flush in s.results
    ensures var s' := D.Step(s, action, stopEvent); flush in s'.results && s'.results[flush] == s.results[flush]
  {
    hide D.QueueOk, D.SteeringOk, D.Acknowledges;
  }

  /** A writer whose batch does not fit never commits. */
  lemma MisfitStaysOut(f: Files, base: seq<Event>, sys: L.System, step: L.Action, pid: nat)
    requires FilesOk(f) && L.Safe(f, base, sys) && pid in sys.writers && pid !in sys.commits
    requires !Fits(f, sys.disk, sys.writers[pid].batch)
    ensures pid !in L.Step(f, sys, step).commits
  {
    hide FilesOk, L.Safe, Fits, Log, LogBytes, ReconcilePlan, Accepts, IndexPlan, Apply;
    if step == L.Commit(pid) && L.Holds(sys, pid) { CommitGrows(f, base, sys, pid); }
  }

  lemma MisfitForever(f: Files, base: seq<Event>, sys: L.System, step: L.Action, batch: seq<Event>)
    requires FilesOk(f) && L.Safe(f, base, sys) && !Fits(f, sys.disk, batch)
    ensures !Fits(f, L.Step(f, sys, step).disk, batch)
  {
    hide FilesOk, L.Safe, Log, LogBytes, L.Step;
    LogGrows(f, base, sys, step);
    var more := Log(f, L.Step(f, sys, step).disk);
    assert more == Log(f, sys.disk) + more[|Log(f, sys.disk)|..];
    IdsOfConcat(Log(f, sys.disk), more[|Log(f, sys.disk)|..]);
  }

  /** The flush failed, or its batch is in flight, cannot be delivered, and was
      not committed unless under other IDs. */
  ghost predicate Hopeless(c: Cli, w: World, flush: nat) {
    if flush in w.session.results then !w.session.results[flush]
    else
      && w.session.inFlight.Some? && w.session.started == flush + 1 && !Deliverable(c, w)
      && (w.writer.Some? && SameIds(c, w.session.inFlight.value) ==> w.writer.value !in w.ledger.commits)
  }

  lemma HopelessHandles(c: Cli, base: seq<Event>, w: World, handler: D.Action, flush: nat)
    requires WorldOk(c, base, w) && Hopeless(c, w, flush) && !handler.IngestEnds?
    ensures Hopeless(c, Step(c, w, Handles(handler)), flush)
  {
    hide D.Valid, L.Safe, Fits, SameIds;
    if flush in w.session.results {
      ResultsStay(w.session, handler, c.stopEvent, flush);
    } else {
      SameFlight(w.session, handler, c.stopEvent);
    }
  }

  /** No handler changes anything about the flush in flight. */
  lemma SameFlight(s: D.Session, handler: D.Action, stopEvent: (int, nat) -> Event)
    requires s.inFlight.Some? && !handler.IngestEnds?
    ensures var s' := D.Step(s, handler, stopEvent);
            (s'.inFlight, s'.results, s'.started) == (s.inFlight, s.results, s.started)
  {
  }

  lemma HopelessStores(c: Cli, base: seq<Event>, w: World, step: L.Action, flush: nat)
    requires FilesOk(c.files) && WorldOk(c, base, w) && Hopeless(c, w, flush)
    ensures Hopeless(c, Step(c, w, Stores(step)), flush)
  {
    hide FilesOk, D.Valid, Fits, SameIds, AllDelivered, L.Step, Inv, L.CommitsOk, ReconcilePlan;
    if flush !in w.session.results {
      var stored := c.Stored(w.session.inFlight.value);
      if !Fits(c.files, w.ledger.disk, stored) {
        MisfitForever(c.files, base, w.ledger, step, stored);
        if w.writer.Some? && w.writer.value !in w.ledger.commits {
          MisfitStaysOut(c.files, base, w.ledger, step, w.writer.value);
        }
      }
    }
  }

  lemma HopelessReplies(c: Cli, base: seq<Event>, w: World, lost: bool, flush: nat)
    requires WorldOk(c, base, w) && Hopeless(c, w, flush) && D.Ingesting(w.session)
    ensures Hopeless(c, Step(c, w, Replies(lost)), flush)
  {
    hide Deliverable, SameIds, AllDelivered, Inv, L.CommitsOk, D.Acknowledges, D.QueueOk, D.SteeringOk, D.FullReply;
    if flush in w.session.results {
      ResultsStay(w.session, D.IngestEnds(Reply(c, w, lost)), c.stopEvent, flush);
    } else {
      NoReply(w.session.inFlight.value);
      ReplyAcknowledges(c, w.session.inFlight.value);
    }
  }

  lemma HopelessStep(c: Cli, base: seq<Event>, w: World, action: Action, flush: nat)
    requires FilesOk(c.files) && WorldOk(c, base, w) && Hopeless(c, w, flush)
    ensures Hopeless(c, Step(c, w, action), flush)
  {
    hide FilesOk, WorldOk, Hopeless, D.Step, L.Step, D.FinishFlush, Submit;
    match action
    case Handles(handler) => if !handler.IngestEnds? { HopelessHandles(c, base, w, handler, flush); }
    case Submits(pid) => if w.session.inFlight.Some? { HopelessSubmits(c, base, w, pid, flush); }
    case Stores(step) => HopelessStores(c, base, w, step, flush);
    case Replies(lost) => if D.Ingesting(w.session) { HopelessReplies(c, base, w, lost, flush); }
  }

  lemma HopelessSubmits(c: Cli, base: seq<Event>, w: World, pid: nat, flush: nat)
    requires WorldOk(c, base, w) && Hopeless(c, w, flush) && w.session.inFlight.Some?
    ensures Hopeless(c, Submit(c, w, pid), flush)
  {
    hide D.Valid, Fits, SameIds, AllDelivered, Inv, L.WritersOk;
  }

  lemma {:induction false} HopelessRun(c: Cli, base: seq<Event>, w: World, run: seq<Action>, flush: nat)
    requires FilesOk(c.files) && WorldOk(c, base, w) && Hopeless(c, w, flush)
    ensures Hopeless(c, Run(c, w, run), flush)
    decreases |run|
  {
    hide FilesOk, WorldOk, Step, Hopeless;
    if run != [] {
      StepKeeps(c, base, w, run[0]);
      HopelessStep(c, base, w, run[0], flush);
      HopelessRun(c, base, Step(c, w, run[0]), run[1..], flush);
    }
  }

  /** A flush whose command is about to start can still succeed, in some future,
      exactly when its batch keeps its IDs, can be encoded, fits, and has no ID
      that is already committed. */
  lemma SucceedsExactly(c: Cli, base: seq<Event>, w: World)
    requires FilesOk(c.files) && WorldOk(c, base, w) && w.session.inFlight.Some? && w.writer.None?
    requires KeysInjective(c.files, Ids(Log(c.files, w.ledger.disk)) + Ids(c.Stored(w.session.inFlight.value)))
    ensures D.Ingesting(w.session)
    ensures (exists w' :: Reaches(c, w, w') && Succeeded(w'.session, w.session.started - 1)) <==> Deliverable(c, w)
  {
    hide FilesOk, Deliverable, L.Safe, AllDelivered, KeysInjective, Log, D.QueueOk, D.SteeringOk, D.FlushesOk;
    D.FinishKeeps(w.session, None);
    var flush := w.session.started - 1;
    if Deliverable(c, w) {
      DeliverableSucceeds(c, base, w);
    } else {
      forall w' | Reaches(c, w, w') ensures !Succeeded(w'.session, flush) {
        var run :| Run(c, w, run) == w';
        HopelessRun(c, base, w, run, flush);
      }
    }
  }

  // ---------- A commit that nobody saw ----------

  /** The stored form of something pending repeats a committed ID. */
  ghost predicate Repeats(c: Cli, w: World, batch: seq<Event>) {
    exists e <- batch :: c.normalize(e).id in Ids(Log(c.files, w.ledger.disk))
  }

  /** From flush `first` on nothing is acknowledged any more. */
  ghost predicate Wedged(c: Cli, w: World, acknowledged: seq<Event>, first: nat) {
    && w.session.acknowledged == acknowledged
    && Repeats(c, w, w.session.pending)
    && first <= w.session.started
    && (forall flush <- w.session.results :: flush >= first ==> !w.session.results[flush])
    && (w.session.inFlight.Some? ==>
         && Repeats(c, w, w.session.inFlight.value)
         && (w.writer.Some? ==> w.writer.value !in w.ledger.commits))
  }

  lemma RepeatsMisfits(c: Cli, w: World, batch: seq<Event>)
    requires Repeats(c, w, batch)
    ensures !Fits(c.files, w.ledger.disk, c.Stored(batch))
  {
    hide Log, LogBytes;
    var e :| e in batch && c.normalize(e).id in Ids(Log(c.files, w.ledger.disk));
    var i :| 0 <= i < |batch| && batch[i] == e;
    assert c.Stored(batch)[i] in c.Stored(batch);
    assert c.normalize(e).id in Ids(c.Stored(batch));
  }

  lemma RepeatsForever(c: Cli, base: seq<Event>, w: World, step: L.Action, batch: seq<Event>)
    requires FilesOk(c.files) && WorldOk(c, base, w) && Repeats(c, w, batch)
    ensures Repeats(c, Step(c, w, Stores(step)), batch)
  {
    hide FilesOk, D.Valid, L.Safe, AllDelivered, CarriesBatch, Log, LogBytes, L.Step;
    LogGrows(c.files, base, w.ledger, step);
    var log, more := Log(c.files, w.ledger.disk), Log(c.files, L.Step(c.files, w.ledger, step).disk);
    assert more == log + more[|log|..];
    IdsOfConcat(log, more[|log|..]);
  }

  lemma WedgedHandles(c: Cli, w: World, handler: D.Action, acknowledged: seq<Event>, first: nat)
    requires Wedged(c, w, acknowledged, first) && !handler.IngestEnds?
    requires w.session.inFlight.None? ==> w.writer.None?
    ensures Wedged(c, Step(c, w, Handles(handler)), acknowledged, first)
  {
    hide Log, Ids;
    HandlersKeepPending(w.session, handler, c.stopEvent);
    var e :| e in w.session.pending && c.normalize(e).id in Ids(Log(c.files, w.ledger.disk));
    assert e in D.Step(w.session, handler, c.stopEvent).pending;
  }

  /** A handler only adds to what is pending; a flush starts with all of it. */
  lemma HandlersKeepPending(s: D.Session, handler: D.Action, stopEvent: (int, nat) -> Event)
    requires !handler.IngestEnds? && s.pending != []
    ensures var s' := D.Step(s, handler, stopEvent);
            && s'.acknowledged == s.acknowledged && s.pending <= s'.pending && s'.results == s.results
            && s'.started >= s.started && (s'.inFlight == s.inFlight || s'.inFlight == Some(s'.pending))
  {
  }

  lemma WedgedStores(c: Cli, base: seq<Event>, w: World, step: L.Action, acknowledged: seq<Event>, first: nat)
    requires FilesOk(c.files) && WorldOk(c, base, w) && Wedged(c, w, acknowledged, first)
    ensures Wedged(c, Step(c, w, Stores(step)), acknowledged, first)
  {
    hide FilesOk, D.Valid, L.Safe, AllDelivered, Repeats, L.Step, Fits;
    RepeatsForever(c, base, w, step, w.session.pending);
    if w.session.inFlight.Some? {
      RepeatsForever(c, base, w, step, w.session.inFlight.value);
      RepeatsMisfits(c, w, w.session.inFlight.value);
      if w.writer.Some? { MisfitStaysOut(c.files, base, w.ledger, step, w.writer.value); }
    }
  }

  lemma WedgedReplies(c: Cli, base: seq<Event>, w: World, lost: bool, acknowledged: seq<Event>, first: nat)
    requires WorldOk(c, base, w) && Wedged(c, w, acknowledged, first) && D.Ingesting(w.session)
    ensures Wedged(c, Step(c, w, Replies(lost)), acknowledged, first)
  {
    hide Log, Ids, AllDelivered, Inv, L.CommitsOk, D.Acknowledges, D.Valid, D.FullReply;
    NoReply(w.session.inFlight.value);
  }

  lemma WedgedSubmits(c: Cli, base: seq<Event>, w: World, pid: nat, acknowledged: seq<Event>, first: nat)
    requires WorldOk(c, base, w) && Wedged(c, w, acknowledged, first) && w.session.inFlight.Some?
    ensures Wedged(c, Submit(c, w, pid), acknowledged, first)
  {
    hide D.Valid, Log, Ids, AllDelivered, Inv, L.WritersOk;
  }

  lemma WedgedStep(c: Cli, base: seq<Event>, w: World, action: Action, acknowledged: seq<Event>, first: nat)
    requires FilesOk(c.files) && WorldOk(c, base, w) && Wedged(c, w, acknowledged, first)
    ensures Wedged(c, Step(c, w, action), acknowledged, first)
  {
    hide FilesOk, D.Valid, L.Safe, AllDelivered, Wedged, D.Step, L.Step, D.FinishFlush, Submit;
    match action
    case Handles(handler) => if !handler.IngestEnds? { WedgedHandles(c, w, handler, acknowledged, first); }
    case Submits(pid) => if w.session.inFlight.Some? { WedgedSubmits(c, base, w, pid, acknowledged, first); }
    case Stores(step) => WedgedStores(c, base, w, step, acknowledged, first);
    case Replies(lost) => if D.Ingesting(w.session) { WedgedReplies(c, base, w, lost, acknowledged, first); }
  }

  /** Once something pending repeats a committed ID and no flush is on its way,
      no later flush ever succeeds, no later stop is accepted, and nothing more
      is acknowledged, whatever happens. */
  lemma {:induction false} WedgedForever(
    c: Cli, base: seq<Event>, w: World, run: seq<Action>, acknowledged: seq<Event>, first: nat)
    requires FilesOk(c.files) && WorldOk(c, base, w) && Wedged(c, w, acknowledged, first)
    ensures var s := Run(c, w, run).session;
            && Wedged(c, Run(c, w, run), acknowledged, first) && s.pending != []
            && forall ticket, gate :: ticket in s.results && ticket >= first ==> !D.Accepts(s, ticket, gate)
    decreases |run|
  {
    if run != [] {
      hide FilesOk, WorldOk, Step, Wedged;
      StepKeeps(c, base, w, run[0]);
      WedgedStep(c, base, w, run[0], acknowledged, first);
      WedgedForever(c, base, Step(c, w, run[0]), run[1..], acknowledged, first);
    }
  }

  /** The batch was committed, and then its reply was lost or the command failed:
      the session is wedged. */
  lemma UnseenCommitWedges(c: Cli, base: seq<Event>, w: World, lost: bool)
    requires FilesOk(c.files) && WorldOk(c, base, w) && w.session.inFlight.Some?
    requires w.writer.Some? && w.writer.value in w.ledger.commits
    requires lost || w.ledger.writers[w.writer.value].phase != L.Succeeded
    ensures var w' := Step(c, w, Replies(lost));
            Wedged(c, w', w.session.acknowledged, w.session.started - 1)
  {
    hide FilesOk, L.Safe, Log, D.SteeringOk, D.FreshIds;
    var batch := w.session.inFlight.value;
    CommittedInLog(c.files, base, w.ledger, w.writer.value);
    NoReply(batch);
    assert c.Stored(batch)[0] in c.Stored(batch);
    assert batch[0] in w.session.pending;
  }
}
