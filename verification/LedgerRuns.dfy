/** Any number of writers sharing one store: they wait for an exclusive lock,
    perform one file operation at a time, and may be killed between any two. */
module LedgerRuns {
  import opened Model
  import opened Jsonl
  import opened LedgerProtocol

  /** Where a writer is. `Recovering` and `Indexing` hold the lock and carry the
      file operations still to perform before and after its commit. */
  datatype Phase =
    | Waiting
    | Recovering(rest: seq<Op>)
    | Indexing(rest: seq<Op>)
    | Succeeded
    | Failed

  datatype Writer = Writer(batch: seq<Event>, phase: Phase)

  /** `commits` remembers whose batches were linked, in order. */
  datatype System = System(
    disk: Store, lock: Option<nat>, writers: map<nat, Writer>, commits: seq<nat>)

  datatype Action =
    | Arrive(pid: nat, batch: seq<Event>)
    | Acquire(pid: nat)
    | Perform(pid: nat)   // one file operation of the plan
    | Commit(pid: nat)    // the hard link of the batch's segment
    | Reject(pid: nat)    // duplicate ID, or the ledger is full
    | Stop(pid: nat)      // killed, or an operation reported an error
    | Finish(pid: nat)

  predicate Holds(sys: System, pid: nat) {
    sys.lock == Some(pid) && pid in sys.writers
  }

  function Move(sys: System, pid: nat, phase: Phase): System
    requires pid in sys.writers
  {
    sys.(writers := sys.writers[pid := sys.writers[pid].(phase := phase)])
  }

  /** One step; an action that is not possible changes nothing. */
  function Step(f: Files, sys: System, action: Action): (r: System)
    ensures sys.writers.Keys <= r.writers.Keys
    ensures !action.Arrive? ==> r.writers.Keys == sys.writers.Keys
  {
    match action
    case Arrive(pid, batch) =>
      if pid !in sys.writers && batch != [] && f.Encode(batch).Some?
      then sys.(writers := sys.writers[pid := Writer(batch, Waiting)]) else sys
    case Acquire(pid) =>
      if sys.lock.None? && pid in sys.writers && sys.writers[pid].phase == Waiting
      then Move(sys, pid, Recovering(ReconcilePlan(f, sys.disk))).(lock := Some(pid)) else sys
    case Perform(pid) => if Holds(sys, pid) then PerformStep(f, sys, pid) else sys
    case Commit(pid) => if Holds(sys, pid) then CommitAction(f, sys, pid) else sys
    case Reject(pid) =>
      if Holds(sys, pid) && sys.writers[pid].phase == Recovering([])
         && !Accepts(f, sys.disk, sys.writers[pid].batch, Encoded(f, sys.writers[pid].batch))
      then Move(sys, pid, Failed).(lock := None) else sys
    case Stop(pid) =>
      if Holds(sys, pid) then Move(sys, pid, Failed).(lock := None)
      else if pid in sys.writers && sys.writers[pid].phase == Waiting then Move(sys, pid, Failed)
      else sys
    case Finish(pid) =>
      if Holds(sys, pid) && sys.writers[pid].phase == Indexing([])
      then Move(sys, pid, Succeeded).(lock := None) else sys
  }

  function PerformStep(f: Files, sys: System, pid: nat): System
    requires Holds(sys, pid)
  {
    match sys.writers[pid].phase
    case Recovering(rest) =>
      if rest != [] && Enabled(f, sys.disk, rest[0])
      then Move(sys, pid, Recovering(rest[1..])).(disk := Apply(f, sys.disk, rest[0])) else sys
    case Indexing(rest) =>
      if rest != [] && Enabled(f, sys.disk, rest[0])
      then Move(sys, pid, Indexing(rest[1..])).(disk := Apply(f, sys.disk, rest[0])) else sys
    case _ => sys
  }

  function CommitAction(f: Files, sys: System, pid: nat): System
    requires Holds(sys, pid)
  {
    var w := sys.writers[pid];
    var data := Encoded(f, w.batch);
    if w.phase == Recovering([]) && Accepts(f, sys.disk, w.batch, data) then
      var disk := Apply(f, sys.disk, LinkSegment(data));
      Move(sys, pid, Indexing(IndexPlan(f, disk, w.batch))).(disk := disk, commits := sys.commits + [pid])
    else sys
  }

  /** The system after the first `n` actions of a run. */
  function At(f: Files, start: System, run: seq<Action>, n: nat): System
    requires n <= |run|
  {
    if n == 0 then start else Step(f, At(f, start, run, n - 1), run[n - 1])
  }

  /** A healthy store that no writer is using yet. */
  ghost predicate Start(f: Files, sys: System) {
    Inv(f, sys.disk) && sys.lock.None? && sys.writers == map[] && sys.commits == []
  }

  // ---------- What every run keeps ----------

  function Batches(writers: map<nat, Writer>, commits: seq<nat>): seq<Event>
    requires forall pid <- commits :: pid in writers
  {
    if commits == [] then []
    else
      var n := |commits| - 1;
      Batches(writers, commits[..n]) + writers[commits[n]].batch
  }

  predicate Busy(phase: Phase) { phase.Recovering? || phase.Indexing? }

  /** A writer's batch is in the log exactly when its phase says so. */
  predicate PhaseFits(w: Writer, committed: bool) {
    match w.phase
    case Waiting => !committed
    case Recovering(_) => !committed
    case Indexing(_) => committed
    case Succeeded => committed
    case Failed => true
  }

  ghost predicate WritersOk(f: Files, sys: System) {
    && (sys.lock.Some? ==> sys.lock.value in sys.writers && Busy(sys.writers[sys.lock.value].phase)
                           && sys.writers[sys.lock.value].phase.rest == ReconcilePlan(f, sys.disk))
    && (forall pid <- sys.writers ::
         && sys.writers[pid].batch != [] && f.Encode(sys.writers[pid].batch).Some?
         && (Busy(sys.writers[pid].phase) ==> sys.lock == Some(pid))
         && PhaseFits(sys.writers[pid], pid in sys.commits))
  }

  ghost predicate CommitsOk(f: Files, base: seq<Event>, sys: System) {
    && (forall pid <- sys.commits :: pid in sys.writers)
    && (forall i, j :: 0 <= i < j < |sys.commits| ==> sys.commits[i] != sys.commits[j])
    && Log(f, sys.disk) == base + Batches(sys.writers, sys.commits)
  }

  /** The store refines an append-only log: what is visible is the log the run
      started with, followed by each committed batch once, in commit order;
      every successful writer's batch is there, and no rejected or waiting
      writer's is. */
  ghost predicate Safe(f: Files, base: seq<Event>, sys: System) {
    Inv(f, sys.disk) && WritersOk(f, sys) && CommitsOk(f, base, sys)
  }

  lemma {:induction false} BatchesKept(a: map<nat, Writer>, b: map<nat, Writer>, commits: seq<nat>)
    requires forall pid <- commits :: pid in a && pid in b && a[pid].batch == b[pid].batch
    ensures Batches(a, commits) == Batches(b, commits)
  {
    if commits != [] {
      var n := |commits| - 1;
      assert commits[n] in commits;
      assert forall pid <- commits[..n] :: pid in commits;
      BatchesKept(a, b, commits[..n]);
    }
  }

  /** Steps that leave the disk and the commits alone. */
  lemma PhaseChange(f: Files, base: seq<Event>, sys: System, sys': System)
    requires Safe(f, base, sys)
    requires sys'.disk == sys.disk && sys'.commits == sys.commits
    requires sys.writers.Keys <= sys'.writers.Keys
    requires forall pid <- sys.writers :: sys'.writers[pid].batch == sys.writers[pid].batch
    requires WritersOk(f, sys')
    ensures Safe(f, base, sys')
  {
    BatchesKept(sys.writers, sys'.writers, sys.commits);
  }

  lemma PerformKeeps(f: Files, base: seq<Event>, sys: System, pid: nat)
    requires FilesOk(f) && Safe(f, base, sys) && Holds(sys, pid)
    ensures Safe(f, base, PerformStep(f, sys, pid))
    ensures Log(f, PerformStep(f, sys, pid).disk) == Log(f, sys.disk)
  {
    hide FilesOk, Inv, ReconcilePlan, Log, Apply;
    var w := sys.writers[pid];
    if w.phase.rest != [] && Enabled(f, sys.disk, w.phase.rest[0]) {
      ReconcileStep(f, sys.disk);
      BatchesKept(sys.writers, PerformStep(f, sys, pid).writers, sys.commits);
    }
  }

  lemma CommitKeepsCommits(f: Files, base: seq<Event>, sys: System, sys': System, pid: nat)
    requires CommitsOk(f, base, sys) && pid in sys.writers && pid !in sys.commits
    requires sys'.writers.Keys == sys.writers.Keys
    requires forall p <- sys.writers :: sys'.writers[p].batch == sys.writers[p].batch
    requires sys'.commits == sys.commits + [pid]
    requires Log(f, sys'.disk) == Log(f, sys.disk) + sys.writers[pid].batch
    ensures CommitsOk(f, base, sys')
  {
    hide Log;
    BatchesKept(sys.writers, sys'.writers, sys.commits);
    assert sys'.commits[..|sys.commits|] == sys.commits;
    assert Log(f, sys'.disk) == base + (Batches(sys.writers, sys.commits) + sys.writers[pid].batch);
  }

  lemma CommitKeepsWriters(f: Files, sys: System, sys': System, pid: nat, plan: seq<Op>)
    requires WritersOk(f, sys) && Holds(sys, pid) && sys.writers[pid].phase.Recovering?
    requires sys'.writers == sys.writers[pid := sys.writers[pid].(phase := Indexing(plan))]
    requires sys'.lock == sys.lock && sys'.commits == sys.commits + [pid]
    requires plan == ReconcilePlan(f, sys'.disk)
    ensures WritersOk(f, sys') && pid !in sys.commits
  {
    hide ReconcilePlan;
    assert forall p :: p in sys'.commits <==> p in sys.commits || p == pid;
  }

  lemma CommitKeeps(f: Files, base: seq<Event>, sys: System, pid: nat)
    requires FilesOk(f) && Safe(f, base, sys) && Holds(sys, pid)
    ensures Safe(f, base, CommitAction(f, sys, pid))
  {
    var w := sys.writers[pid];
    var data := Encoded(f, w.batch);
    var sys' := CommitAction(f, sys, pid);
    if w.phase == Recovering([]) && Accepts(f, sys.disk, w.batch, data) {
      assert f.Read(data) == Some(w.batch) && data != [];
      assert ReconcilePlan(f, sys.disk) == [];
      hide FilesOk, Inv, ReconcilePlan, Log, Apply, Accepts, IndexPlan, Batches, CommitsOk, WritersOk;
      CommitStep(f, sys.disk, w.batch, data);
      IndexIsRecovery(f, sys.disk, w.batch, data);
      CommitKeepsWriters(f, sys, sys', pid, IndexPlan(f, sys'.disk, w.batch));
      CommitKeepsCommits(f, base, sys, sys', pid);
    }
  }

  lemma StepKeeps(f: Files, base: seq<Event>, sys: System, action: Action)
    requires FilesOk(f) && Safe(f, base, sys)
    ensures Safe(f, base, Step(f, sys, action))
  {
    hide FilesOk, Inv, ReconcilePlan, Log, Apply, Accepts, IndexPlan, Batches, CommitsOk;
    var sys' := Step(f, sys, action);
    match action
    case Perform(pid) => if Holds(sys, pid) { PerformKeeps(f, base, sys, pid); }
    case Commit(pid) => if Holds(sys, pid) { CommitKeeps(f, base, sys, pid); }
    case Arrive(pid, batch) => ArriveKeeps(f, base, sys, pid, batch);
    case _ => PhaseChange(f, base, sys, sys');
  }

  lemma ArriveKeeps(f: Files, base: seq<Event>, sys: System, pid: nat, batch: seq<Event>)
    requires Safe(f, base, sys)
    ensures Safe(f, base, Step(f, sys, Arrive(pid, batch)))
  {
    hide Inv, ReconcilePlan, Log, Batches;
    assert pid in sys.commits ==> pid in sys.writers;
    PhaseChange(f, base, sys, Step(f, sys, Arrive(pid, batch)));
  }

  /** A writer can be killed at any moment; that releases its lock and changes
      nothing on disk. */
  lemma AnyoneCanStop(f: Files, sys: System, pid: nat)
    requires pid in sys.writers
    requires Holds(sys, pid) || sys.writers[pid].phase == Waiting
    ensures var sys' := Step(f, sys, Stop(pid));
            && sys'.writers == sys.writers[pid := sys.writers[pid].(phase := Failed)]
            && sys'.disk == sys.disk && sys'.commits == sys.commits && sys'.lock != Some(pid)
            && (!Holds(sys, pid) ==> sys'.lock == sys.lock || sys.lock == Some(pid))
  {
  }

  /** Safety over every run of concurrent writers, kills and restarts. */
  lemma {:induction false} EveryRunSafe(f: Files, start: System, run: seq<Action>, n: nat)
    requires FilesOk(f) && Start(f, start) && n <= |run|
    ensures Safe(f, Log(f, start.disk), At(f, start, run, n))
  {
    hide FilesOk, Inv, Log, Step;
    if n == 0 {
      assert Batches(start.writers, start.commits) == [];
    } else {
      EveryRunSafe(f, start, run, n - 1);
      StepKeeps(f, Log(f, start.disk), At(f, start, run, n - 1), run[n - 1]);
    }
  }

  // ---------- Segments only ever grow, one at a time ----------

  lemma StepGrows(f: Files, sys: System, action: Action)
    ensures var s, s' := sys.disk, Step(f, sys, action).disk;
            && s'.legacy == s.legacy && s.segments <= s'.segments && |s'.segments| <= |s.segments| + 1
  {
    hide ReconcilePlan, IndexPlan, Accepts, Encoded;
  }

  lemma {:induction false} RunGrows(f: Files, start: System, run: seq<Action>, n: nat, m: nat)
    requires n <= m <= |run|
    ensures At(f, start, run, n).disk.segments <= At(f, start, run, m).disk.segments
    ensures At(f, start, run, m).disk.legacy == At(f, start, run, n).disk.legacy
  {
    hide Step;
    if n < m {
      RunGrows(f, start, run, n, m - 1);
      StepGrows(f, At(f, start, run, m - 1), run[m - 1]);
    }
  }

  /** Every length between two moments was the length at some moment. */
  lemma {:induction false} MomentWith(f: Files, start: System, run: seq<Action>, a: nat, b: nat, k: nat)
      returns (j: nat)
    requires a <= b <= |run|
    requires |At(f, start, run, a).disk.segments| <= k <= |At(f, start, run, b).disk.segments|
    ensures a <= j <= b
    ensures At(f, start, run, j).disk.segments == At(f, start, run, b).disk.segments[..k]
    ensures At(f, start, run, j).disk.legacy == start.disk.legacy
  {
    hide Step;
    if k == |At(f, start, run, b).disk.segments| {
      j := b;
      RunGrows(f, start, run, 0, b);
    } else if a < b {
      StepGrows(f, At(f, start, run, b - 1), run[b - 1]);
      j := MomentWith(f, start, run, a, b - 1, k);
    }
  }

  // ---------- Recovery never wedges ----------

  /** `pid` performs `n` file operations and nobody interferes. */
  function RunAlone(f: Files, sys: System, pid: nat, n: nat): (r: System)
    ensures r.writers.Keys == sys.writers.Keys
    decreases n
  {
    if n == 0 then sys else RunAlone(f, Step(f, sys, Perform(pid)), pid, n - 1)
  }

  function Remaining(sys: System, pid: nat): nat {
    if pid in sys.writers && Busy(sys.writers[pid].phase) then |sys.writers[pid].phase.rest| else 0
  }

  function Done(w: Writer): Writer {
    match w.phase
    case Recovering(_) => w.(phase := Recovering([]))
    case Indexing(_) => w.(phase := Indexing([]))
    case _ => w
  }

  lemma PerformNext(f: Files, base: seq<Event>, sys: System, pid: nat)
    requires FilesOk(f) && Safe(f, base, sys) && Holds(sys, pid) && Remaining(sys, pid) > 0
    requires KeysInjective(f, Ids(Log(f, sys.disk)))
    ensures var sys' := Step(f, sys, Perform(pid));
            && Safe(f, base, sys') && Holds(sys', pid) && Remaining(sys', pid) == Remaining(sys, pid) - 1
            && Done(sys'.writers[pid]) == Done(sys.writers[pid])
            && Log(f, sys'.disk) == Log(f, sys.disk) && LogBytes(sys'.disk) == LogBytes(sys.disk)
  {
    hide FilesOk, Inv, Log, Apply, KeysInjective, CommitsOk, LogBytes, ReconcilePlan;
    ReconcileEnabled(f, sys.disk);
    PerformKeeps(f, base, sys, pid);
    LogBytesKept(f, sys.disk);
  }

  lemma {:induction false} PlanRuns(f: Files, base: seq<Event>, sys: System, pid: nat)
    requires FilesOk(f) && Safe(f, base, sys) && Holds(sys, pid)
    requires KeysInjective(f, Ids(Log(f, sys.disk)))
    ensures var sys' := RunAlone(f, sys, pid, Remaining(sys, pid));
            && Safe(f, base, sys') && Holds(sys', pid) && Remaining(sys', pid) == 0
            && sys'.writers[pid] == Done(sys.writers[pid])
            && Log(f, sys'.disk) == Log(f, sys.disk) && LogBytes(sys'.disk) == LogBytes(sys.disk)
    decreases Remaining(sys, pid)
  {
    hide Safe, Log, LogBytes, Step, FilesOk, KeysInjective;
    if Remaining(sys, pid) > 0 {
      PerformNext(f, base, sys, pid);
      PlanRuns(f, base, Step(f, sys, Perform(pid)), pid);
    } else {
      HolderIsBusy(f, base, sys, pid);
    }
  }

  lemma HolderIsBusy(f: Files, base: seq<Event>, sys: System, pid: nat)
    requires Safe(f, base, sys) && Holds(sys, pid)
    ensures Busy(sys.writers[pid].phase) && sys.writers[pid].phase.rest == ReconcilePlan(f, sys.disk)
    ensures Inv(f, sys.disk) && sys.writers[pid].batch != [] && f.Encode(sys.writers[pid].batch).Some?
  {
    hide Inv, CommitsOk;
  }

  /** A waiting writer takes the lock and is left alone until it returns. */
  function AppendAlone(f: Files, sys: System, pid: nat): System {
    var locked := Step(f, sys, Acquire(pid));
    var recovered := RunAlone(f, locked, pid, Remaining(locked, pid));
    var committed := Step(f, recovered, Commit(pid));
    var indexed := RunAlone(f, committed, pid, Remaining(committed, pid));
    Step(f, Step(f, indexed, Finish(pid)), Reject(pid))
  }

  /** Recovery never wedges: whatever state earlier kills left the store in, a
      writer that is left alone succeeds exactly when its batch fits the ledger
      and repeats no committed ID, and then the log grew by exactly its batch. */
  lemma AppendNeverWedges(f: Files, base: seq<Event>, sys: System, pid: nat)
    requires FilesOk(f) && Safe(f, base, sys) && sys.lock.None?
    requires pid in sys.writers && sys.writers[pid].phase == Waiting
    requires KeysInjective(f, Ids(Log(f, sys.disk)) + Ids(sys.writers[pid].batch))
    ensures var batch := sys.writers[pid].batch;
            var done := AppendAlone(f, sys, pid);
            && pid in done.writers && done.lock == None
            && done.writers[pid].phase == (if Fits(f, sys.disk, batch) then Succeeded else Failed)
            && Log(f, done.disk) == Log(f, sys.disk) + (if Fits(f, sys.disk, batch) then batch else [])
  {
    hide FilesOk, Inv, Log, Apply, Safe, LogBytes, IndexPlan, Accepts, ReconcilePlan, KeysInjective, CommitAction;
    var batch := sys.writers[pid].batch;
    LockedRecovers(f, base, sys, pid);
    var locked := Step(f, sys, Acquire(pid));
    var recovered := RunAlone(f, locked, pid, Remaining(locked, pid));
    if Accepts(f, recovered.disk, batch, Encoded(f, batch)) {
      CommittedFinishes(f, base, recovered, pid);
    } else {
      RejectedFinishes(f, recovered, pid);
    }
  }

  lemma RejectedFinishes(f: Files, sys: System, pid: nat)
    requires Holds(sys, pid) && sys.writers[pid].phase == Recovering([])
    requires !Accepts(f, sys.disk, sys.writers[pid].batch, Encoded(f, sys.writers[pid].batch))
    ensures Step(f, sys, Commit(pid)) == sys && RunAlone(f, sys, pid, Remaining(sys, pid)) == sys
    ensures Step(f, sys, Finish(pid)) == sys
    ensures Step(f, sys, Reject(pid)) == Move(sys, pid, Failed).(lock := None)
  {
    hide Accepts;
  }

  lemma LockedRecovers(f: Files, base: seq<Event>, sys: System, pid: nat)
    requires FilesOk(f) && Safe(f, base, sys) && sys.lock.None?
    requires pid in sys.writers && sys.writers[pid].phase == Waiting
    requires KeysInjective(f, Ids(Log(f, sys.disk)) + Ids(sys.writers[pid].batch))
    ensures var locked := Step(f, sys, Acquire(pid));
            var recovered := RunAlone(f, locked, pid, Remaining(locked, pid));
            && Safe(f, base, recovered) && Holds(recovered, pid)
            && recovered.writers[pid] == sys.writers[pid].(phase := Recovering([]))
            && Log(f, recovered.disk) == Log(f, sys.disk)
            && (Accepts(f, recovered.disk, sys.writers[pid].batch, Encoded(f, sys.writers[pid].batch))
                <==> Fits(f, sys.disk, sys.writers[pid].batch))
  {
    hide FilesOk, Inv, Log, Apply, CommitsOk, LogBytes, Accepts, ReconcilePlan, KeysInjective, Ids;
    var batch := sys.writers[pid].batch;
    var locked := Step(f, sys, Acquire(pid));
    StepKeeps(f, base, sys, Acquire(pid));
    FewerKeys(f, Ids(Log(f, sys.disk)), Ids(batch));
    PlanRuns(f, base, locked, pid);
    var recovered := RunAlone(f, locked, pid, Remaining(locked, pid));
    HolderIsBusy(f, base, recovered, pid);
    QuietBytes(f, recovered.disk);
    AcceptsExactly(f, recovered.disk, batch, Encoded(f, batch));
  }

  lemma CommitHappens(f: Files, sys: System, pid: nat)
    requires Holds(sys, pid) && sys.writers[pid].phase == Recovering([])
    requires Accepts(f, sys.disk, sys.writers[pid].batch, Encoded(f, sys.writers[pid].batch))
    ensures var committed := Step(f, sys, Commit(pid));
            && committed == CommitAction(f, sys, pid) && Holds(committed, pid)
            && Done(committed.writers[pid]).phase == Indexing([])
            && committed.disk == Apply(f, sys.disk, LinkSegment(Encoded(f, sys.writers[pid].batch)))
  {
  }

  lemma CommittedFinishes(f: Files, base: seq<Event>, sys: System, pid: nat)
    requires FilesOk(f) && Safe(f, base, sys) && Holds(sys, pid) && sys.writers[pid].phase == Recovering([])
    requires Accepts(f, sys.disk, sys.writers[pid].batch, Encoded(f, sys.writers[pid].batch))
    requires KeysInjective(f, Ids(Log(f, sys.disk)) + Ids(sys.writers[pid].batch))
    ensures var committed := Step(f, sys, Commit(pid));
            var indexed := RunAlone(f, committed, pid, Remaining(committed, pid));
            && Holds(indexed, pid) && indexed.writers[pid].phase == Indexing([])
            && Log(f, indexed.disk) == Log(f, sys.disk) + sys.writers[pid].batch
  {
    HolderIsBusy(f, base, sys, pid);
    var batch := sys.writers[pid].batch;
    assert f.Read(Encoded(f, batch)) == Some(batch) && Encoded(f, batch) != [];
    hide FilesOk, Inv, Log, Apply, Safe, Step, CommitAction, Accepts, ReconcilePlan, KeysInjective, LogBytes;
    CommitHappens(f, sys, pid);
    CommitStep(f, sys.disk, batch, Encoded(f, batch));
    CommitKeeps(f, base, sys, pid);
    IdsOfConcat(Log(f, sys.disk), batch);
    PlanRuns(f, base, Step(f, sys, Commit(pid)), pid);
  }

  // ---------- An error does not mean that nothing was committed ----------

  const EMPTY_STORE := Store([], map[], None, None)

  /** A writer takes an empty store, saves its totals, links its segment, and
      then fails. */
  function LateFailure(batch: seq<Event>): seq<Action> {
    [Arrive(0, batch), Acquire(0), Perform(0), Commit(0), Stop(0)]
  }

  lemma EmptyStoreStarts(f: Files)
    requires FilesOk(f)
    ensures Start(f, System(EMPTY_STORE, None, map[], []))
    ensures ReconcilePlan(f, EMPTY_STORE) == [SaveState(StoreState(1, 0, 0, 0, "", 0))]
  {
    assert Upto(f, [], 0) == [] && Ids([]) == {};
  }

  lemma FirstBatchAccepted(f: Files, batch: seq<Event>)
    requires FilesOk(f) && batch != [] && f.Encode(batch).Some?
    ensures var s := EMPTY_STORE.(state := Some(StoreState(1, 0, 0, 0, "", 0)));
            && Accepts(f, s, batch, Encoded(f, batch))
            && Log(f, Apply(f, s, LinkSegment(Encoded(f, batch)))) == batch
  {
    var data := Encoded(f, batch);
    assert ReadOk(data, f.Read(data).value);
    assert [] + [data] == [data] && Upto(f, [data], 0) == [] && Upto(f, [data], 1) == [] + EventsOf(f, data);
  }

  /** The append reports an error, and its whole batch is in the log. */
  lemma FailedYetCommitted(f: Files, batch: seq<Event>)
    requires FilesOk(f) && batch != [] && f.Encode(batch).Some?
    ensures var start := System(EMPTY_STORE, None, map[], []);
            var end := At(f, start, LateFailure(batch), 5);
            && Start(f, start) && 0 in end.writers && end.writers[0] == Writer(batch, Failed) && end.lock == None
            && Log(f, end.disk) == batch
  {
    hide FilesOk, Start, ReconcilePlan, Accepts, Log, Inv, IndexPlan;
    var start := System(EMPTY_STORE, None, map[], []);
    EmptyStoreStarts(f);
    FirstBatchAccepted(f, batch);
    var run, saved := LateFailure(batch), StoreState(1, 0, 0, 0, "", 0);
    assert At(f, start, run, 0) == start;
    var s1 := At(f, start, run, 1);
    assert s1 == start.(writers := map[0 := Writer(batch, Waiting)]);
    var s2 := At(f, start, run, 2);
    assert s2 == Move(s1, 0, Recovering([SaveState(saved)])).(lock := Some(0));
    var s3 := At(f, start, run, 3);
    assert [SaveState(saved)][1..] == [];
    assert s3 == Move(s2, 0, Recovering([])).(disk := EMPTY_STORE.(state := Some(saved)));
    var s4 := At(f, start, run, 4);
    assert s4 == CommitAction(f, s3, 0) && s4.lock == Some(0);
  }
}
