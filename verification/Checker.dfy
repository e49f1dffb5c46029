/** Running one check and turning its outcome into a receipt
    (internal/checker/checker.go). */
module Checker {
  import opened Model
  import opened Fingerprint
  import opened Receipts
  import opened Gate

  /** How the command ended. `Exited(0)` is the only success. */
  datatype Outcome = Exited(code: int) | TimedOut | CouldNotStart

  /** What the receipt records besides the run itself. */
  datatype Details = Details(
    id: string, startedAt: Time, finishedAt: Time, gitCommit: string,
    stdoutSummary: string, stderrSummary: string, logPath: string, logData: Bytes, version: string)

  const TIMED_OUT_ERROR := "check timed out"
  const NOT_STARTED_ERROR := "could not start check"
  const FILES_CHANGED_ERROR := "relevant files changed while the check was running"

  /** The verdict of a run, from its outcome and whether the relevant files
      had the same fingerprint before and after. */
  method AssignVerdict(outcome: Outcome, before: string, after: string)
      returns (exitCode: int, verdict: Verdict, error: string)
    ensures verdict == Pass <==> outcome == Exited(0) && before == after
    ensures verdict == Fail <==> outcome.Exited? && outcome.code != 0 && before == after
    ensures exitCode == ExitCode(outcome) && verdict.Valid()
    ensures error == "" <==> outcome.Exited? && before == after
    ensures (exitCode, verdict, error) == Assigned(outcome, before == after)
  {
    exitCode, verdict, error := 0, Pass, "";
    if outcome != Exited(0) {
      match outcome {
        case TimedOut => exitCode, verdict, error := 124, Inconclusive, TIMED_OUT_ERROR;
        case Exited(code) => exitCode, verdict := code, Fail;
        case CouldNotStart => exitCode, verdict, error := -1, Inconclusive, NOT_STARTED_ERROR;
      }
    }
    if before != after { verdict, error := Inconclusive, FILES_CHANGED_ERROR; }
  }

  function ExitCode(outcome: Outcome): int {
    match outcome
    case Exited(code) => code
    case TimedOut => 124
    case CouldNotStart => -1
  }

  function Assigned(outcome: Outcome, steady: bool): (int, Verdict, string) {
    var verdict := match outcome
      case Exited(code) => if code == 0 then Pass else Fail
      case _ => Inconclusive;
    var error := match outcome
      case Exited(_) => ""
      case TimedOut => TIMED_OUT_ERROR
      case CouldNotStart => NOT_STARTED_ERROR;
    if steady then (ExitCode(outcome), verdict, error) else (ExitCode(outcome), Inconclusive, FILES_CHANGED_ERROR)
  }

  /** The unsigned receipt of a run. */
  function Receipted(env: Env, checkId: string, check: Check, outcome: Outcome, before: string, after: string,
      count: nat, d: Details): Receipt {
    var (exitCode, verdict, error) := Assigned(outcome, before == after);
    Receipt(SCHEMA_VERSION, d.id, PRODUCER, checkId, check.argv, env.Clean(check.workingDirectory), d.startedAt,
        d.finishedAt,
      exitCode, verdict, d.gitCommit, after, count, d.stdoutSummary, d.stderrSummary, d.logPath,
      env.LogDigest(d.logData), d.version, error, "", None, "")
  }

  // ---------- Captured output ----------

  /** Keeps the first `limit` bytes of everything written to it. */
  class LimitedBuffer {
    const limit: nat
    var data: Bytes
    var truncated: bool
    ghost var written: Bytes

    ghost predicate Valid()
      reads this
    {
      && data == (if |written| <= limit then written else written[..limit])
      && truncated == (|written| > limit)
    }

    constructor (size: nat)
      ensures limit == size && written == [] && Valid()
    {
      limit, data, truncated, written := size, [], false, [];
    }

    method Write(p: Bytes) returns (n: nat)
      requires Valid()
      modifies this
      ensures Valid() && written == old(written) + p && n == |p|
    {
      n := |p|;
      var remaining := limit - |data|;
      if remaining > 0 {
        var keep := if |p| > remaining then remaining else |p|;
        data := data + p[..keep];
      }
      if n > remaining { truncated := true; }
      written := written + p;
    }
  }
}
