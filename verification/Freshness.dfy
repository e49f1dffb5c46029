/** Evidence over whole runs: file edits, configuration edits, checks that run
    concurrently and may crash, files put back or damaged by hand, and gates. */
module Freshness {
  import opened Model
  import opened SegmentNames
  import opened Glob
  import opened Preimage
  import opened Fingerprint
  import opened FingerprintMemo
  import opened Receipts
  import opened Gate
  import opened Checker

  /** A run of a check, as it happened. */
  datatype Run = Run(
    checkId: string, check: Check, outcome: Outcome, details: Details, start: World, end: World, receipt: Receipt)

  datatype Phase =
    | Running(checkId: string, check: Check, before: string, start: World)
    | Publishing(receipt: Receipt)

  /** `runs` remembers every run whose receipt was signed. */
  datatype System = System(
    world: World, checks: map<string, Check>, latest: map<string, Receipt>, logs: map<string, Bytes>,
    active: map<nat, Phase>, runs: seq<Run>)

  datatype Action =
    | EditWorld(world: World)
    | EditConfig(checks: map<string, Check>)
    | StartCheck(pid: nat, checkId: string)
    | EndCheck(pid: nat, outcome: Outcome, details: Details)  // second fingerprint, log, signature, receipt file
    | Publish(pid: nat)                                       // replace the latest alias
    | Crash(pid: nat)
    | PutLatest(checkId: string, receipt: Receipt)            // any file operation on an alias from outside
    | PutLog(path: string, data: Option<Bytes>)

  /** What never changes: the hashes, the signing key and path cleaning. */
  datatype Tools = Tools(h: Hashes, signer: Signer, cleanPath: string -> string)

  function EnvOf(t: Tools, s: System): Env {
    Env(t.h, t.signer, t.cleanPath, s.world, s.checks, s.latest, p => if p in s.logs then Some(s.logs[p]) else None)
  }

  /** Only `EndCheck` signs: whatever verifies repeats the content of some
      receipt signed earlier. Outside writers can copy those, or damage files. */
  ghost predicate Honest(t: Tools, s: System, r: Receipt) {
    VerifySignature(t.signer, r) ==> exists run <- s.runs :: Stripped(run.receipt) == Stripped(r)
  }

  ghost function Step(t: Tools, s: System, action: Action): System {
    match action
    case EditWorld(world) => s.(world := world)
    case EditConfig(checks) => if ConfigOk(checks) then s.(checks := checks) else s
    case StartCheck(pid, id) =>
      if pid !in s.active && id in s.checks && Computable(t.h, s.world, s.checks[id].relevantFiles) then
        s.(active := s.active[pid := Running(id, s.checks[id],
            FingerprintOf(t.h, s.world, s.checks[id].relevantFiles), s.world)])
      else s
    case EndCheck(pid, outcome, details) =>
      if pid in s.active && s.active[pid].Running? then End(t, s, pid, outcome, details) else s
    case Publish(pid) =>
      if pid in s.active && s.active[pid].Publishing? then
        var r := s.active[pid].receipt;
        s.(latest := s.latest[r.checkId := r], active := s.active - {pid})
      else s
    case Crash(pid) => s.(active := s.active - {pid})
    case PutLatest(id, r) => if Honest(t, s, r) then s.(latest := s.latest[id := r]) else s
    case PutLog(path, data) => s.(logs := if data.Some? then s.logs[path := data.value] else s.logs - {path})
  }

  /** The rest of a run after its command ended; it may still fail to sign. */
  ghost function End(t: Tools, s: System, pid: nat, outcome: Outcome, d: Details): System
    requires pid in s.active && s.active[pid].Running?
  {
    var Running(id, check, before, start) := s.active[pid];
    if !Computable(t.h, s.world, check.relevantFiles) then s.(active := s.active - {pid})
    else
      var after := FingerprintOf(t.h, s.world, check.relevantFiles);
      var signed := Sign(t.signer, Receipted(EnvOf(t, s), id, check, outcome, before, after,
                                           |Relevant(s.world, check.relevantFiles)|, d));
      var logged := s.(logs := s.logs[d.logPath := d.logData]);
      if signed.None? then logged.(active := s.active - {pid})
      else logged.(active := s.active[pid := Publishing(signed.value)],
                   runs := s.runs + [Run(id, check, outcome, d, start, s.world, signed.value)])
  }

  /** Nothing keeps the outside world from acting: files and configurations change
      to anything valid, aliases to anything that was signed or does not verify. */
  lemma OutsideActs(t: Tools, s: System, world: World, checks: map<string, Check>, id: string, r: Receipt, pid: nat)
    ensures Step(t, s, EditWorld(world)) == s.(world := world)
    ensures ConfigOk(checks) ==> Step(t, s, EditConfig(checks)) == s.(checks := checks)
    ensures !VerifySignature(t.signer, r) || (exists run <- s.runs :: Stripped(run.receipt) == Stripped(r)) ==>
              Step(t, s, PutLatest(id, r)) == s.(latest := s.latest[id := r])
    ensures Step(t, s, Crash(pid)) == s.(active := s.active - {pid})
  {
    hide ConfigOk, VerifySignature;
  }

  /** A configured check whose files can be fingerprinted can be started. */
  lemma CheckStarts(t: Tools, s: System, pid: nat, id: string)
    requires pid !in s.active && id in s.checks && Computable(t.h, s.world, s.checks[id].relevantFiles)
    ensures var before := FingerprintOf(t.h, s.world, s.checks[id].relevantFiles);
            Step(t, s, StartCheck(pid, id)) == s.(active := s.active[pid := Running(id, s.checks[id], before, s.world)])
  {
    hide Computable, FingerprintOf;
  }

  ghost function At(t: Tools, start: System, run: seq<Action>, n: nat): System
    requires n <= |run|
  {
    if n == 0 then start else Step(t, At(t, start, run, n - 1), run[n - 1])
  }

  // ---------- What every run keeps ----------

  /** The relevant files had one fingerprint at the start and at the end. */
  ghost predicate Steady(t: Tools, run: Run) {
    var files := run.check.relevantFiles;
    && Computable(t.h, run.start, files) && Computable(t.h, run.end, files)
    && FingerprintOf(t.h, run.start, files) == FingerprintOf(t.h, run.end, files)
  }

  /** A signed receipt tells the truth about its run: what was run where and when,
      how it ended, which files it saw, and what it printed. */
  ghost predicate Truthful(t: Tools, run: Run) {
    var files, d, r := run.check.relevantFiles, run.details, run.receipt;
    && Computable(t.h, run.start, files) && Computable(t.h, run.end, files)
    && r.id == d.id && r.checkId == run.checkId && r.argv == run.check.argv
    && r.workingDirectory == Cleaned(t, run.check.workingDirectory)
    && r.startedAt == d.startedAt && r.finishedAt == d.finishedAt
    && r.fingerprint == FingerprintOf(t.h, run.end, files) && r.fileCount == |Relevant(run.end, files)|
    && r.logPath == d.logPath && r.logDigest == "sha256:" + t.h.Digest(d.logData)
    && r.exitCode == (match run.outcome case Exited(code) => code case TimedOut => 124 case CouldNotStart => -1)
    && (r.verdict == Pass <==> run.outcome == Exited(0) && Steady(t, run))
    && (r.verdict == Fail <==> run.outcome.Exited? && run.outcome != Exited(0) && Steady(t, run))
    && (r.error == "" <==> run.outcome.Exited? && Steady(t, run))
    && r.verdict.Valid()
  }

  function Cleaned(t: Tools, wd: string): string { t.cleanPath(if wd == "" then "." else wd) }

  ghost predicate ActiveOk(t: Tools, s: System, phase: Phase) {
    match phase
    case Running(_, check, before, start) =>
      Computable(t.h, start, check.relevantFiles) && before == FingerprintOf(t.h, start, check.relevantFiles)
    case Publishing(r) => Honest(t, s, r)
  }

  ghost predicate Safe(t: Tools, s: System) {
    && ConfigOk(s.checks)
    && (forall run <- s.runs :: Truthful(t, run))
    && (forall pid <- s.active :: ActiveOk(t, s, s.active[pid]))
    && (forall id <- s.latest :: Honest(t, s, s.latest[id]))
  }

  lemma HonestLater(t: Tools, s: System, s': System, r: Receipt)
    requires Honest(t, s, r) && s.runs <= s'.runs
    ensures Honest(t, s', r)
  {
    hide VerifySignature;
    if VerifySignature(t.signer, r) {
      var run :| run in s.runs && Stripped(run.receipt) == Stripped(r);
      assert run in s'.runs;
    }
  }

  lemma NewRunTruthful(t: Tools, s: System, pid: nat, outcome: Outcome, d: Details)
    requires Safe(t, s) && pid in s.active && s.active[pid].Running?
    ensures forall run <- End(t, s, pid, outcome, d).runs :: run in s.runs || Truthful(t, run)
    ensures s.runs <= End(t, s, pid, outcome, d).runs
  {
    hide Computable, FingerprintOf, Relevant, ContractOk, ConfigOk, Honest;
    assert ActiveOk(t, s, s.active[pid]);
  }

  lemma EndKeeps(t: Tools, s: System, pid: nat, outcome: Outcome, d: Details)
    requires Safe(t, s) && pid in s.active && s.active[pid].Running?
    ensures Safe(t, End(t, s, pid, outcome, d))
  {
    hide Computable, FingerprintOf, Relevant, ContractOk, ConfigOk, Honest, Truthful, Receipted;
    var s' := End(t, s, pid, outcome, d);
    NewRunTruthful(t, s, pid, outcome, d);
    forall id <- s'.latest ensures Honest(t, s', s'.latest[id]) { HonestLater(t, s, s', s.latest[id]); }
    forall p <- s'.active ensures ActiveOk(t, s', s'.active[p]) {
      if p == pid {
        NewReceiptHonest(t, s, pid, outcome, d);
      } else {
        assert ActiveOk(t, s, s.active[p]);
        if s.active[p].Publishing? { HonestLater(t, s, s', s.active[p].receipt); }
      }
    }
  }

  lemma NewReceiptHonest(t: Tools, s: System, pid: nat, outcome: Outcome, d: Details)
    requires pid in s.active && s.active[pid].Running?
    ensures var s' := End(t, s, pid, outcome, d);
            pid in s'.active ==> s'.active[pid].Publishing? && Honest(t, s', s'.active[pid].receipt)
  {
    hide Computable, FingerprintOf, Relevant, ContractOk, Receipted, VerifySignature;
    var s' := End(t, s, pid, outcome, d);
    if pid in s'.active { assert s'.runs[|s'.runs| - 1] in s'.runs; }
  }

  lemma StepKeeps(t: Tools, s: System, action: Action)
    requires Safe(t, s)
    ensures Safe(t, Step(t, s, action))
  {
    hide Computable, FingerprintOf, Relevant, ConfigOk, Honest, Truthful, End;
    var s' := Step(t, s, action);
    if action.EndCheck? && action.pid in s.active && s.active[action.pid].Running? {
      EndKeeps(t, s, action.pid, action.outcome, action.details);
    } else {
      forall id <- s'.latest ensures Honest(t, s', s'.latest[id]) { LatestKept(t, s, action, id); }
      forall p <- s'.active ensures ActiveOk(t, s', s'.active[p]) { ActiveKept(t, s, action, p); }
    }
  }

  lemma LatestKept(t: Tools, s: System, action: Action, id: string)
    requires Safe(t, s) && id in Step(t, s, action).latest
    requires !(action.EndCheck? && action.pid in s.active && s.active[action.pid].Running?)
    ensures Honest(t, Step(t, s, action), Step(t, s, action).latest[id])
  {
    hide Computable, FingerprintOf, Relevant, ConfigOk, Honest, Truthful, End;
    var s' := Step(t, s, action);
    if action.Publish? && action.pid in s.active { assert ActiveOk(t, s, s.active[action.pid]); }
    HonestLater(t, s, s', s'.latest[id]);
  }

  lemma ActiveKept(t: Tools, s: System, action: Action, p: nat)
    requires Safe(t, s) && p in Step(t, s, action).active
    requires !(action.EndCheck? && action.pid in s.active && s.active[action.pid].Running?)
    ensures ActiveOk(t, Step(t, s, action), Step(t, s, action).active[p])
  {
    hide Computable, FingerprintOf, Relevant, ConfigOk, Honest, Truthful, End;
    var s' := Step(t, s, action);
    if p in s.active {
      assert ActiveOk(t, s, s.active[p]);
      if s.active[p].Publishing? { HonestLater(t, s, s', s.active[p].receipt); }
    }
  }

  /** A repository before its first check. */
  ghost predicate Start(s: System) {
    ConfigOk(s.checks) && s.runs == [] && s.active == map[] && s.latest == map[]
  }

  lemma {:induction false} EveryRunSafe(t: Tools, start: System, run: seq<Action>, n: nat)
    requires Start(start) && n <= |run|
    ensures Safe(t, At(t, start, run, n))
  {
    hide Step;
    if n > 0 {
      EveryRunSafe(t, start, run, n - 1);
      StepKeeps(t, At(t, start, run, n - 1), run[n - 1]);
    }
  }

  // ---------- What a PASS means ----------

  ghost predicate ToolsOk(t: Tools) {
    CollisionFree(t.h) && SignerOk(t.signer) && forall p :: t.cleanPath(t.cleanPath(p)) == t.cleanPath(p)
  }

  /** The same files are matched by some of `patterns` in both worlds, and each
      has the same kind, executable bits, target and content. */
  ghost predicate SameRelevant(v: World, w: World, patterns: seq<string>) {
    && (forall p :: Selected(v, patterns, p) <==> Selected(w, patterns, p))
    && (forall p :: Selected(v, patterns, p) ==> Observed(v, p) == Observed(w, p))
  }

  /** `run` is a good reason to call the check done in `s`. */
  ghost predicate Justifies(t: Tools, s: System, id: string, run: Run) {
    && run.checkId == id && id in s.checks && run.outcome == Exited(0)
    && run.check.argv == s.checks[id].argv
    && run.check.relevantFiles == s.checks[id].relevantFiles
    && Cleaned(t, run.check.workingDirectory) == Cleaned(t, s.checks[id].workingDirectory)
    && SameRelevant(run.start, run.end, s.checks[id].relevantFiles)
    && SameRelevant(run.end, s.world, s.checks[id].relevantFiles)
    && run.details.logPath in s.logs && s.logs[run.details.logPath] == run.details.logData
  }

  ghost predicate Printed(s: System) {
    KindsPrinted(s.world) && forall run <- s.runs :: KindsPrinted(run.start) && KindsPrinted(run.end)
  }

  /** The log that a bound receipt names is what its run printed. */
  lemma LogIsThere(t: Tools, s: System, r: Receipt, data: Bytes)
    requires CollisionFree(t.h) && LogIs(EnvOf(t, s), r) && r.logDigest == "sha256:" + t.h.Digest(data)
    ensures r.logPath in s.logs && s.logs[r.logPath] == data
  {
    var x, y := t.h.Digest(s.logs[r.logPath]), t.h.Digest(data);
    assert ("sha256:" + x)[7..] == x && ("sha256:" + y)[7..] == y;
  }

  lemma BoundIsJustified(t: Tools, s: System, id: string, run: Run)
    requires ToolsOk(t) && Safe(t, s) && Printed(s) && run in s.runs
    requires id in s.latest && s.latest[id].checkId == id && s.latest[id].verdict == Pass
        && Bound(EnvOf(t, s), s.latest[id])
    requires Stripped(run.receipt) == Stripped(s.latest[id])
    ensures Justifies(t, s, id, run)
  {
    hide Computable, FingerprintOf, Relevant, ConfigOk, VerifySignature, LogIs, Selected, Observed, CollisionFree,
        KindsPrinted, SignerOk;
    assert Truthful(t, run);
    LogIsThere(t, s, s.latest[id], run.details.logData);
    var files := run.check.relevantFiles;
    EqualFingerprints(t.h, run.start, files, run.end, files);
    EqualFingerprints(t.h, run.end, files, s.world, s.checks[id].relevantFiles);
  }

  /** In every run, whenever the gate answers PASS, each required check is
      backed by a run of the current argv in the current working directory that
      exited 0, with the relevant files the same at its start, at its end, and now. */
  lemma PassIsJustified(t: Tools, start: System, actions: seq<Action>, n: nat, decision: Decision, id: string)
    requires ToolsOk(t) && Start(start) && n <= |actions|
    requires var s := At(t, start, actions, n);
             Printed(s) && FullAnswer(EnvOf(t, s), decision, Pass) && id in Required(s.checks)
    ensures var s := At(t, start, actions, n);
            && id in s.latest
            && exists run <- s.runs :: Stripped(run.receipt) == Stripped(s.latest[id]) && Justifies(t, s, id, run)
  {
    hide At, Start, ToolsOk, Printed, FullAnswer, Bound, Justifies, ConfigOk, Truthful;
    var s := At(t, start, actions, n);
    EveryRunSafe(t, start, actions, n);
    PassMeansBound(EnvOf(t, s), decision, id);
    var r := LoadLatest(EnvOf(t, s), id).value;
    BoundVerifies(EnvOf(t, s), r);
    assert Honest(t, s, r);
    var run :| run in s.runs && Stripped(run.receipt) == Stripped(r);
    BoundIsJustified(t, s, id, run);
  }

  lemma BoundVerifies(env: Env, r: Receipt)
    requires Bound(env, r)
    ensures VerifySignature(env.signer, r)
  {
  }

  // ---------- A good run is accepted ----------

  ghost function Ended(t: Tools, s: System, pid: nat, outcome: Outcome, d: Details): System {
    Step(t, Step(t, s, EndCheck(pid, outcome, d)), Publish(pid))
  }

  /** SHA-256 is printed as 64 hexadecimal digits. */
  ghost predicate HashesPrint(h: Hashes) {
    forall b :: |h.Sum(b)| == 64 && IsHex(h.Sum(b)) && |h.Digest(b)| == 64 && IsHex(h.Digest(b))
  }

  /** A run whose details can be recorded: safe names, a command, times in order,
      a version, and paths that stay inside the repository. */
  predicate Recorded(t: Tools, id: string, check: Check, d: Details) {
    && SafeToken(id, 64) && SafeToken(d.id, 256)
    && check.argv != [] && Trim(check.argv[0]) != "" && (forall arg <- check.argv :: '\0' !in arg)
    && d.startedAt != 0 && d.finishedAt != 0 && d.startedAt <= d.finishedAt
    && Trim(d.version) != ""
    && d.logPath != "" && Inside(d.logPath) && Inside(Cleaned(t, check.workingDirectory))
  }

  lemma DigestPrinted(digits: string)
    requires |digits| == 64 && IsHex(digits)
    ensures ValidDigest("sha256:" + digits)
  {
    assert ("sha256:" + digits)[7..] == digits;
  }

  /** The receipt of such a run can be signed, whatever its outcome. */
  lemma GoodReceipt(t: Tools, s: System, id: string, check: Check, outcome: Outcome, before: string, after: string,
      count: nat, d: Details)
    requires HashesPrint(t.h) && Recorded(t, id, check, d) && ValidDigest(after)
    ensures ContractOk(Receipted(EnvOf(t, s), id, check, outcome, before, after, count, d))
  {
    hide SafeToken, ValidDigest, Inside, Trim, HashesPrint;
    LogDigestPrinted(t, s, d.logData);
  }

  lemma LogDigestPrinted(t: Tools, s: System, data: Bytes)
    requires HashesPrint(t.h)
    ensures ValidDigest(EnvOf(t, s).LogDigest(data))
  {
    hide ValidDigest;
    DigestPrinted(t.h.Digest(data));
  }

  lemma FingerprintPrinted(h: Hashes, w: World, patterns: seq<string>)
    requires HashesPrint(h) && Computable(h, w, patterns)
    ensures ValidDigest(FingerprintOf(h, w, patterns))
  {
    hide PatternsOk, ListsFit, NoSubmodule, Stream, Records, EncodeAll, ValidDigest, IndexModes, Relevant, Recordable;
    DigestPrinted(h.Sum(Stream(EncodeAll(h, patterns),
                               Records(h, w, IndexModes(w, patterns), Relevant(w, patterns)))));
  }

  /** Whether the relevant files still have the fingerprint the run started with. */
  ghost predicate Unchanged(t: Tools, s: System, pid: nat)
    requires pid in s.active && s.active[pid].Running?
  {
    var Running(id, check, before, start) := s.active[pid];
    Computable(t.h, s.world, check.relevantFiles) && before == FingerprintOf(t.h, s.world, check.relevantFiles)
  }

  lemma ReceiptIsSigned(t: Tools, s: System, pid: nat, outcome: Outcome, d: Details) returns (r: Receipt)
    requires ToolsOk(t) && HashesPrint(t.h) && pid in s.active && s.active[pid].Running?
    requires Recorded(t, s.active[pid].checkId, s.active[pid].check, d)
    requires Computable(t.h, s.world, s.active[pid].check.relevantFiles)
    ensures var Running(id, check, before, start) := s.active[pid];
            var after, s' := FingerprintOf(t.h, s.world, check.relevantFiles), Ended(t, s, pid, outcome, d);
            && Stripped(r) == Stripped(Receipted(EnvOf(t, s), id, check, outcome, before, after,
                                                 |Relevant(s.world, check.relevantFiles)|, d))
            && VerifySignature(t.signer, r) && r.logPath != ""
            && id in s'.latest && s'.latest[id] == r && SafeToken(id, 64)
            && s'.logs == s.logs[d.logPath := d.logData] && (s'.world, s'.checks) == (s.world, s.checks)
  {
    hide Computable, FingerprintOf, Relevant, ContractOk, CollisionFree, HashesPrint, Recorded, SafeToken;
    var Running(id, check, before, start) := s.active[pid];
    var after := FingerprintOf(t.h, s.world, check.relevantFiles);
    var count := |Relevant(s.world, check.relevantFiles)|;
    var unsigned := Receipted(EnvOf(t, s), id, check, outcome, before, after, count, d);
    FingerprintPrinted(t.h, s.world, check.relevantFiles);
    GoodReceipt(t, s, id, check, outcome, before, after, count, d);
    SignedVerifies(t.signer, unsigned, None, "");
    r := Sign(t.signer, unsigned).value;
    assert r == r.(shownFresh := None, staleReason := "");
    TokenOk(r);
  }

  /** A run whose details can be recorded leaves a signed receipt as the latest of
      its check, unless its relevant files cannot be fingerprinted any more. It
      says PASS exactly when the command exited 0 and the files did not change,
      FAIL exactly when it exited otherwise and they did not change. */
  lemma RunIsSigned(t: Tools, s: System, pid: nat, outcome: Outcome, d: Details)
    requires ToolsOk(t) && HashesPrint(t.h) && pid in s.active && s.active[pid].Running?
    requires Recorded(t, s.active[pid].checkId, s.active[pid].check, d)
    requires Computable(t.h, s.world, s.active[pid].check.relevantFiles)
    ensures var id, s' := s.active[pid].checkId, Ended(t, s, pid, outcome, d);
            && HasReceipt(EnvOf(t, s'), id)
            && (s'.latest[id].verdict == Pass <==> outcome == Exited(0) && Unchanged(t, s, pid))
            && (s'.latest[id].verdict == Fail <==>
                outcome.Exited? && outcome != Exited(0) && Unchanged(t, s, pid))
  {
    hide Computable, FingerprintOf, Relevant, VerifySignature, HashesPrint, Recorded, SafeToken, ToolsOk, Step;
    var r := ReceiptIsSigned(t, s, pid, outcome, d);
  }

  lemma TokenOk(r: Receipt)
    requires ContractOk(r)
    ensures SafeToken(r.checkId, 64) && r.logPath != ""
  {
    hide Inside, ValidDigest, SafeToken, Trim;
  }

  /** A check that exits 0 while neither the relevant files nor its configuration
      changed, and whose details can be recorded, passes the gate. */
  lemma GoodRunPasses(t: Tools, s: System, pid: nat, d: Details)
    requires ToolsOk(t) && HashesPrint(t.h) && pid in s.active && s.active[pid].Running?
    requires var Running(id, check, before, start) := s.active[pid];
             id in s.checks && s.checks[id] == check && Recorded(t, id, check, d) && Unchanged(t, s, pid)
    ensures Passed(EnvOf(t, Ended(t, s, pid, Exited(0), d)), s.active[pid].checkId)
  {
    hide Computable, FingerprintOf, Relevant, VerifySignature, CollisionFree, HashesPrint, Recorded, SafeToken, Step;
    var r := ReceiptIsSigned(t, s, pid, Exited(0), d);
    assert LogIs(EnvOf(t, Ended(t, s, pid, Exited(0), d)), r);
  }
}
