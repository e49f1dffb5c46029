/** Judging evidence: whether a receipt still describes the repository
    (internal/evidence/validate.go), the completion gate (internal/gate/gate.go)
    and the incident's verdict (internal/incident/incident.go). */
module Gate {
  import opened Model
  import opened SegmentNames
  import opened Sorting
  import opened Fingerprint
  import opened FingerprintMemo
  import opened Deadline
  import opened Receipts

  datatype Check = Check(argv: seq<string>, relevantFiles: seq<string>, workingDirectory: string,
      required: Option<bool>)
  {
    predicate IsRequired() { required.None? || required.value }
  }

  /** Everything the judgement depends on. `cleanPath` is the lexical cleaning of
      a path; `logs` gives the content of a log that resolves safely. */
  datatype Env = Env(
    h: Hashes, signer: Signer, cleanPath: string -> string,
    world: World, checks: map<string, Check>,
    latest: map<string, Receipt>, logs: string -> Option<Bytes>)
  {
    function Clean(path: string): string { cleanPath(if path == "" then "." else path) }
    function Log(path: string): Option<Bytes> { logs(path) }
    function LogDigest(data: Bytes): string { DIGEST_PREFIX + h.Digest(data) }
  }

  /** What loading a configuration guarantees. */
  ghost predicate ConfigOk(checks: map<string, Check>) {
    forall id <- checks :: PatternsOk(checks[id].relevantFiles)
  }

  // ---------- Is a receipt still bound to the repository? ----------

  ghost predicate FingerprintIs(env: Env, patterns: seq<string>, value: string) {
    Computable(env.h, env.world, patterns) && FingerprintOf(env.h, env.world, patterns) == value
  }

  predicate LogIs(env: Env, r: Receipt) {
    r.logPath != "" && env.Log(r.logPath).Some? && env.LogDigest(env.Log(r.logPath).value) == r.logDigest
  }

  ghost predicate Bound(env: Env, r: Receipt) {
    && VerifySignature(env.signer, r)
    && r.checkId in env.checks
    && env.checks[r.checkId].argv == r.argv
    && env.Clean(env.checks[r.checkId].workingDirectory) == env.cleanPath(r.workingDirectory)
    && FingerprintIs(env, env.checks[r.checkId].relevantFiles, r.fingerprint)
    && LogIs(env, r)
  }

  method EqualStrings(a: seq<string>, b: seq<string>) returns (equal: bool)
    ensures equal <==> a == b
  {
    if |a| != |b| { return false; }
    var i := 0;
    while i < |a|
      invariant 0 <= i <= |a|
      invariant a[..i] == b[..i]
    {
      if a[i] != b[i] { return false; }
      i := i + 1;
    }
    equal := true;
  }

  method HashLog(ctx: Context, env: Env, path: string) returns (r: Option<string>)
    modifies ctx
    ensures ctx.Later()
    ensures old(ctx.expired) ==> r.None?
    ensures r.Some? ==> env.Log(path).Some? && r.value == env.LogDigest(env.Log(path).value)
    ensures r.None? ==> ctx.expired || env.Log(path).None?
  {
    if env.Log(path).None? { return None; }
    var e := ctx.Err();
    if e { return None; }
    r := Some(env.LogDigest(env.Log(path).value));
  }

  method ValidateBindingContext(ctx: Context, cache: FingerprintCache, env: Env, r: Receipt)
      returns (bound: bool, reason: string)
    requires cache.h == env.h && ConfigOk(env.checks)
    requires Remembers(env.h, env.world, cache.results, ctx.expired)
    modifies ctx, cache
    ensures ctx.Later()
    ensures Remembers(env.h, env.world, cache.results, ctx.expired)
    ensures bound ==> Bound(env, r)
    ensures !bound ==> ctx.expired || !Bound(env, r)
  {
    hide VerifySignature, Remembers, Computable, FingerprintOf, PatternsOk, Relevant, FingerprintMemo.Clean;
    bound := false;
    var signed := VerifyReceiptSignature(env.signer, r);
    if !signed { return false, "invalid receipt"; }
    if r.checkId !in env.checks { return false, "check no longer exists in current configuration"; }
    var check := env.checks[r.checkId];
    var same := EqualStrings(check.argv, r.argv);
    if !same { return false, "check argv changed since evidence was collected"; }
    if env.Clean(check.workingDirectory) != env.cleanPath(r.workingDirectory) {
      return false, "check working directory changed since evidence was collected";
    }
    ValidatedIsClean(check.relevantFiles);
    var fingerprint := cache.Fingerprint(ctx, env.world, check.relevantFiles);
    if fingerprint.Err? { return false, "cannot recompute relevant-file fingerprint"; }
    if fingerprint.value.0 != r.fingerprint { return false, "relevant files changed after the check"; }
    if r.logPath == "" { return false, "receipt log is missing"; }
    ghost var before := ctx.expired;
    var actual := HashLog(ctx, env, r.logPath);
    RemembersLater(env.h, env.world, cache.results, before, ctx.expired);
    if actual.None? { return false, "receipt log cannot be verified"; }
    if actual.value != r.logDigest { return false, "receipt log hash does not match"; }
    return true, "";
  }

  /** Still bound, and the check passed. */
  method ValidateFreshContext(ctx: Context, cache: FingerprintCache, env: Env, r: Receipt)
      returns (isFresh: bool, reason: string)
    requires cache.h == env.h && ConfigOk(env.checks)
    requires Remembers(env.h, env.world, cache.results, ctx.expired)
    modifies ctx, cache
    ensures ctx.Later()
    ensures Remembers(env.h, env.world, cache.results, ctx.expired)
    ensures isFresh ==> Bound(env, r) && r.verdict == Pass
    ensures !isFresh ==> ctx.expired || !Bound(env, r) || r.verdict != Pass
  {
    hide Bound, Remembers, ConfigOk;
    isFresh, reason := ValidateBindingContext(ctx, cache, env, r);
    if !isFresh { return; }
    if r.verdict != Pass { return false, "latest check verdict is not PASS"; }
    return true, "";
  }

  // ---------- The meaning of each required check ----------

  function LoadLatest(env: Env, id: string): Option<Receipt> {
    if SafeToken(id, 64) && id in env.latest && env.latest[id].checkId == id then Some(env.latest[id]) else None
  }

  /** The check's alias exists under a safe name and is for this check. */
  predicate HasAlias(env: Env, id: string) {
    SafeToken(id, 64) && id in env.latest && env.latest[id].checkId == id
  }

  /** It is signed, too. */
  predicate HasReceipt(env: Env, id: string) {
    HasAlias(env, id) && VerifySignature(env.signer, env.latest[id])
  }

  /** What the evidence for one check says when nothing runs out. */
  ghost function Judge(env: Env, id: string): (v: Verdict)
    ensures v.Valid()
  {
    var r := LoadLatest(env, id);
    if r.None? || !VerifySignature(env.signer, r.value) then Inconclusive
    else if r.value.verdict == Fail then Fail
    else if r.value.verdict == Pass && Bound(env, r.value) then Pass
    else Inconclusive
  }

  /** Only a signed receipt that says INCONCLUSIVE lets the gate open without evidence. */
  predicate OnlyWarns(env: Env, id: string) {
    var r := LoadLatest(env, id);
    r.Some? && VerifySignature(env.signer, r.value) && r.value.verdict == Inconclusive
  }

  function Rank(v: Verdict): nat {
    match v
    case Fail => 2
    case Inconclusive => 1
    case _ => 0
  }

  function StrongerVerdict(current: Verdict, candidate: Verdict): (v: Verdict)
    ensures v == current || v == candidate
    ensures Rank(v) >= Rank(current) && Rank(v) >= Rank(candidate)
  {
    if Rank(candidate) > Rank(current) then candidate else current
  }

  /** `v` is the strongest verdict among the required checks `ids`. */
  ghost predicate Strongest(env: Env, ids: seq<string>, v: Verdict) {
    && (forall id <- ids :: Rank(Judge(env, id)) <= Rank(v))
    && (v == Pass || exists id <- ids :: Judge(env, id) == v)
  }

  predicate IsRequiredIds(checks: map<string, Check>, ids: seq<string>) {
    && (forall id <- ids :: id in checks && checks[id].IsRequired())
    && (forall id <- checks :: checks[id].IsRequired() ==> id in ids)
  }

  /** The required checks, sorted by name. */
  method RequiredIds(checks: map<string, Check>) returns (ids: seq<string>)
    ensures IsRequiredIds(checks, ids) && Increasing(ids)
  {
    hide Before;
    ids := [];
    var todo := checks.Keys;
    while todo != {}
      invariant todo <= checks.Keys
      invariant forall id <- ids :: id in checks && checks[id].IsRequired() && id !in todo
      invariant forall id <- checks :: checks[id].IsRequired() ==> id in ids || id in todo
      invariant NoRepeats(ids)
    {
      var id :| id in todo;
      if checks[id].IsRequired() { ids := ids + [id]; }
      todo := todo - {id};
    }
    SortedStrings(ids);
    SortKeepsElements(Before, ids);
    ids := Sort(Before, ids);
  }

  // ---------- The gate ----------

  datatype Decision = Allow | Block

  datatype CheckResult = CheckResult(checkId: string, verdict: Verdict, receiptVerdict: Option<Verdict>,
      shownFresh: Option<bool>, reason: string)

  datatype GateResult = GateResult(
    schemaVersion: int, decision: Decision, verdict: Verdict, reason: string, systemMessage: string,
        checks: seq<CheckResult>)

  function Join(lines: seq<string>): string {
    if lines == [] then "" else if |lines| == 1 then lines[0] else lines[0] + "\n- " + Join(lines[1..])
  }

  function BlockReason(blockers: seq<string>): (s: string)
    ensures s != ""
  {
    "BeforeDone requires fresh evidence before completion:\n- " + Join(blockers)
  }

  function WarningMessage(warnings: seq<string>): (s: string)
    ensures s != ""
  {
    "BeforeDone could not reach a conclusive verdict:\n- " + Join(warnings)
  }

  /** One check as the loop sees it: its verdict, and whether it only warns. */
  method EvaluateCheck(ctx: Context, cache: FingerprintCache, env: Env, id: string)
      returns (r: CheckResult, warns: bool)
    requires cache.h == env.h && ConfigOk(env.checks)
    requires Remembers(env.h, env.world, cache.results, ctx.expired)
    modifies ctx, cache
    ensures ctx.Later()
    ensures Remembers(env.h, env.world, cache.results, ctx.expired)
    ensures r.checkId == id && r.verdict.Valid() && (warns <==> OnlyWarns(env, id))
    ensures warns <==> HasReceipt(env, id) && env.latest[id].verdict == Inconclusive
    ensures r.receiptVerdict == if HasAlias(env, id) then Some(env.latest[id].verdict) else None
    ensures r.shownFresh == if HasReceipt(env, id) && env.latest[id].verdict == Pass then Some(r.verdict == Pass)
                            else None
    ensures r.verdict == Judge(env, id) || (ctx.expired && Judge(env, id) == Pass && r.verdict == Inconclusive
        && !warns)
  {
    hide Bound, Remembers, ConfigOk, VerifySignature;
    warns := false;
    r := CheckResult(id, Inconclusive, None, None, "");
    var receipt := LoadLatest(env, id);
    if receipt.None? {
      r := r.(reason := id + ": no evidence receipt");
      return;
    }
    r := r.(receiptVerdict := Some(receipt.value.verdict));
    var signed := VerifyReceiptSignature(env.signer, receipt.value);
    if !signed {
      r := r.(reason := id + ": invalid evidence receipt");
      return;
    }
    VerifiedIsValid(env.signer, receipt.value);
    if receipt.value.verdict == Inconclusive {
      r := r.(reason := id + ": verification was INCONCLUSIVE");
      warns := true;
    } else if receipt.value.verdict == Fail {
      r := r.(verdict := Fail, reason := id + ": latest verification FAILED");
    } else {
      var isFresh, why := ValidateFreshContext(ctx, cache, env, receipt.value);
      r := r.(shownFresh := Some(isFresh));
      if isFresh { r := r.(verdict := Pass); } else { r := r.(reason := id + ": evidence is stale (" + why + ")"); }
    }
  }

  lemma VerifiedIsValid(s: Signer, r: Receipt)
    requires VerifySignature(s, r)
    ensures r.verdict.Valid()
  {
    hide SafeToken, ValidDigest, Inside;
  }

  function Required(checks: map<string, Check>): set<string> {
    set id <- checks | checks[id].IsRequired()
  }

  /** `v` is the strongest verdict among the required checks. */
  ghost predicate StrongestRequired(env: Env, v: Verdict) {
    && v.Valid()
    && (forall id <- Required(env.checks) :: Rank(Judge(env, id)) <= Rank(v))
    && (v == Pass || exists id <- Required(env.checks) :: Judge(env, id) == v)
  }

  /** The gate's answer when its budget lasts. */
  ghost predicate FullAnswer(env: Env, decision: Decision, verdict: Verdict) {
    && (decision == Allow <==> forall id <- Required(env.checks) :: Judge(env, id) == Pass || OnlyWarns(env, id))
    && StrongestRequired(env, verdict)
  }

  /** The same for a list of checks. */
  ghost predicate FullAnswerFor(env: Env, ids: seq<string>, decision: Decision, verdict: Verdict) {
    && (decision == Allow <==> forall id <- ids :: Judge(env, id) == Pass || OnlyWarns(env, id))
    && Strongest(env, ids, verdict) && verdict.Valid()
  }

  /** The rules the DeepSeek adapter checks on every gate result. */
  predicate GateResultOk(r: GateResult) {
    && r.schemaVersion == 1 && r.verdict.Valid()
    && (forall check <- r.checks :: check.verdict.Valid())
    && (r.decision == Block ==> r.reason != "")
    && (r.verdict == Pass ==> r.decision == Allow)
    && (r.verdict == Fail ==> r.decision == Block)
    && (r.decision == Allow && r.verdict == Inconclusive ==> r.systemMessage != "")
  }

  /** How the adapter reads a gate result. */
  method AcceptsGateResult(r: GateResult) returns (ok: bool)
    ensures ok <==> GateResultOk(r)
  {
    if r.schemaVersion != 1 || r.verdict.OtherVerdict? { return false; }
    var i := 0;
    while i < |r.checks|
      invariant 0 <= i <= |r.checks| && forall k :: 0 <= k < i ==> r.checks[k].verdict.Valid()
    {
      if r.checks[i].verdict.OtherVerdict? {
        assert r.checks[i] in r.checks;
        return false;
      }
      i := i + 1;
    }
    if r.decision == Block && r.reason == "" { return false; }
    if r.verdict == Pass && r.decision != Allow { return false; }
    if r.verdict == Fail && r.decision != Block { return false; }
    if r.decision == Allow && r.verdict == Inconclusive { return r.systemMessage != ""; }
    ok := true;
  }

  /** What the loop knows after the first `n` checks. */
  ghost predicate Judged(env: Env, ids: seq<string>, n: nat, checks: seq<CheckResult>, blockers: seq<string>,
      warnings: seq<string>, expired: bool) {
    && n <= |ids| && |checks| == n
    && (forall i :: 0 <= i < n ==> checks[i].checkId == ids[i] && checks[i].verdict.Valid())
    && (forall i :: 0 <= i < n ==> JudgedOne(env, ids[i], checks[i].verdict, expired))
    && (blockers == [] <==> forall i :: 0 <= i < n ==> checks[i].verdict == Pass || OnlyWarns(env, ids[i]))
    && (warnings == [] <==> forall i :: 0 <= i < n ==> !OnlyWarns(env, ids[i]))
  }

  ghost predicate JudgedOne(env: Env, id: string, v: Verdict, expired: bool) {
    v == Judge(env, id) || (expired && Judge(env, id) == Pass && v == Inconclusive && !OnlyWarns(env, id))
  }

  lemma WarnsIsInconclusive(env: Env, id: string)
    requires OnlyWarns(env, id)
    ensures Judge(env, id) == Inconclusive
  {
    hide Bound, VerifySignature;
  }

  lemma JudgedStep(env: Env, ids: seq<string>, n: nat, checks: seq<CheckResult>, blockers: seq<string>,
      warnings: seq<string>,
                   before: bool, after: bool, r: CheckResult, warns: bool)
    requires Judged(env, ids, n, checks, blockers, warnings, before) && n < |ids| && (before ==> after)
    requires r.checkId == ids[n] && r.verdict.Valid() && (warns <==> OnlyWarns(env, ids[n]))
    requires JudgedOne(env, ids[n], r.verdict, after)
    ensures Judged(env, ids, n + 1, checks + [r],
              if r.verdict == Pass || warns then blockers else blockers + [r.reason],
              if warns then warnings + [r.reason] else warnings, after)
  {
    hide Judge, OnlyWarns;
  }

  lemma AllowedExactly(env: Env, ids: seq<string>, checks: seq<CheckResult>, blockers: seq<string>,
      warnings: seq<string>)
    requires Judged(env, ids, |ids|, checks, blockers, warnings, false)
    ensures blockers == [] <==> forall id <- ids :: Judge(env, id) == Pass || OnlyWarns(env, id)
  {
    hide Judge, OnlyWarns;
    if blockers != [] {
      var i :| 0 <= i < |ids| && !(checks[i].verdict == Pass || OnlyWarns(env, ids[i]));
      assert ids[i] in ids;
    }
  }

  /** The verdict the gate derives from its results. */
  ghost function GateVerdict(checks: seq<CheckResult>, blockers: seq<string>, warnings: seq<string>): Verdict {
    if blockers != [] then (if exists c <- checks :: c.verdict == Fail then Fail else Inconclusive)
    else if warnings != [] then Inconclusive else Pass
  }

  lemma NothingStronger(env: Env, ids: seq<string>, checks: seq<CheckResult>, blockers: seq<string>,
      warnings: seq<string>, i: nat)
    requires Judged(env, ids, |ids|, checks, blockers, warnings, false) && i < |ids|
    ensures Rank(Judge(env, ids[i])) <= Rank(GateVerdict(checks, blockers, warnings))
  {
    hide Judge, OnlyWarns;
    assert JudgedOne(env, ids[i], checks[i].verdict, false);
    assert checks[i] in checks;
    if OnlyWarns(env, ids[i]) { WarnsIsInconclusive(env, ids[i]); }
  }

  lemma StrongestFound(env: Env, ids: seq<string>, checks: seq<CheckResult>, blockers: seq<string>,
      warnings: seq<string>)
    requires Judged(env, ids, |ids|, checks, blockers, warnings, false)
    ensures Strongest(env, ids, GateVerdict(checks, blockers, warnings))
  {
    hide Judge, OnlyWarns, Rank;
    var verdict := GateVerdict(checks, blockers, warnings);
    forall id <- ids ensures Rank(Judge(env, id)) <= Rank(verdict) {
      var i :| 0 <= i < |ids| && ids[i] == id;
      NothingStronger(env, ids, checks, blockers, warnings, i);
    }
    if verdict != Pass {
      var i := Witness(env, ids, checks, blockers, warnings);
      assert ids[i] in ids;
    }
  }

  lemma Witness(env: Env, ids: seq<string>, checks: seq<CheckResult>, blockers: seq<string>, warnings: seq<string>)
      returns (i: nat)
    requires Judged(env, ids, |ids|, checks, blockers, warnings, false)
        && GateVerdict(checks, blockers, warnings) != Pass
    ensures i < |ids| && Judge(env, ids[i]) == GateVerdict(checks, blockers, warnings)
  {
    hide Judge, OnlyWarns, Rank;
    if blockers == [] {
      i :| 0 <= i < |ids| && OnlyWarns(env, ids[i]);
      WarnsIsInconclusive(env, ids[i]);
    } else if exists c <- checks :: c.verdict == Fail {
      var c :| c in checks && c.verdict == Fail;
      i :| 0 <= i < |ids| && checks[i] == c;
      assert JudgedOne(env, ids[i], checks[i].verdict, false);
    } else {
      i :| 0 <= i < |ids| && !(checks[i].verdict == Pass || OnlyWarns(env, ids[i]));
      assert JudgedOne(env, ids[i], checks[i].verdict, false);
      assert checks[i] in checks;
    }
  }

  lemma GateVerdictValid(checks: seq<CheckResult>, blockers: seq<string>, warnings: seq<string>)
    ensures GateVerdict(checks, blockers, warnings).Valid()
  {
  }

  lemma JudgedNothing(env: Env, ids: seq<string>, expired: bool)
    ensures Judged(env, ids, 0, [], [], [], expired)
  {
  }

  /** An expiry always leaves a blocker behind. */
  lemma NothingRanOut(env: Env, ids: seq<string>, checks: seq<CheckResult>, blockers: seq<string>,
      warnings: seq<string>, expired: bool)
    requires Judged(env, ids, |ids|, checks, blockers, warnings, expired) && blockers == []
    ensures Judged(env, ids, |ids|, checks, blockers, warnings, false)
  {
    hide Judge, OnlyWarns;
    forall i | 0 <= i < |ids| ensures JudgedOne(env, ids[i], checks[i].verdict, false) {
      assert JudgedOne(env, ids[i], checks[i].verdict, expired);
    }
  }

  lemma Answered(env: Env, ids: seq<string>, checks: seq<CheckResult>, blockers: seq<string>, warnings: seq<string>,
      expired: bool)
    requires Judged(env, ids, |ids|, checks, blockers, warnings, expired) && (blockers == [] || !expired)
    ensures FullAnswerFor(env, ids, if blockers == [] then Allow else Block, GateVerdict(checks, blockers, warnings))
  {
    hide Judge, OnlyWarns, Judged, Strongest, GateVerdict;
    if blockers == [] { NothingRanOut(env, ids, checks, blockers, warnings, expired); }
    AllowedExactly(env, ids, checks, blockers, warnings);
    StrongestFound(env, ids, checks, blockers, warnings);
    GateVerdictValid(checks, blockers, warnings);
  }

  lemma JudgedValid(env: Env, ids: seq<string>, n: nat, checks: seq<CheckResult>, blockers: seq<string>,
      warnings: seq<string>, expired: bool)
    requires Judged(env, ids, n, checks, blockers, warnings, expired)
    ensures n <= |ids| && |checks| == n
    ensures forall i :: 0 <= i < n ==> checks[i].checkId == ids[i] && checks[i].verdict.Valid()
  {
  }

  /** The loop over the required checks. */
  method EvaluateChecks(ctx: Context, cache: FingerprintCache, env: Env, ids: seq<string>)
    returns (checks: seq<CheckResult>, blockers: seq<string>, warnings: seq<string>)
    requires cache.h == env.h && ConfigOk(env.checks)
    requires Remembers(env.h, env.world, cache.results, ctx.expired)
    modifies ctx, cache
    ensures ctx.Later()
    ensures old(ctx.expired) && ids != [] ==> blockers != []
    ensures Judged(env, ids, |ids|, checks, blockers, warnings, ctx.expired)
            || (ctx.expired && blockers != [] && |checks| <= |ids|
                && forall i :: 0 <= i < |checks| ==> checks[i].checkId == ids[i] && checks[i].verdict.Valid())
  {
    hide Judge, OnlyWarns, Remembers, ConfigOk, Judged;
    checks, blockers, warnings := [], [], [];
    JudgedNothing(env, ids, ctx.expired);
    var i := 0;
    while i < |ids|
      invariant 0 <= i <= |ids|
      invariant ctx.Later()
      invariant old(ctx.expired) ==> i == 0
      invariant Remembers(env.h, env.world, cache.results, ctx.expired)
      invariant Judged(env, ids, i, checks, blockers, warnings, ctx.expired)
    {
      ghost var before := ctx.expired;
      JudgedValid(env, ids, i, checks, blockers, warnings, before);
      var e := ctx.Err();
      if e {
        blockers := blockers + ["evidence validation exceeded the safety budget"];
        return;
      }
      var check, warns := EvaluateCheck(ctx, cache, env, ids[i]);
      JudgedStep(env, ids, i, checks, blockers, warnings, before, ctx.expired, check, warns);
      if warns {
        warnings := warnings + [check.reason];
      } else if check.verdict != Pass {
        blockers := blockers + [check.reason];
      }
      checks := checks + [check];
      i := i + 1;
    }
  }

  /** The verdict of a blocked result. */
  method BlockedVerdict(checks: seq<CheckResult>) returns (v: Verdict)
    ensures v == if exists c <- checks :: c.verdict == Fail then Fail else Inconclusive
  {
    v := Inconclusive;
    var i := 0;
    while i < |checks|
      invariant 0 <= i <= |checks|
      invariant v == Inconclusive && forall k :: 0 <= k < i ==> checks[k].verdict != Fail
    {
      if checks[i].verdict == Fail {
        assert checks[i] in checks;
        return Fail;
      }
      i := i + 1;
    }
  }

  ghost predicate InOrder(checks: seq<CheckResult>) {
    forall i, j :: 0 <= i < j < |checks| ==> Before(checks[i].checkId, checks[j].checkId)
  }

  /** One result with the right verdict for every required check. */
  ghost predicate Reports(env: Env, checks: seq<CheckResult>) {
    && (forall c <- checks :: c.verdict == Judge(env, c.checkId))
    && (forall id <- Required(env.checks) :: exists c <- checks :: c.checkId == id)
  }

  lemma Reported(env: Env, ids: seq<string>, checks: seq<CheckResult>, blockers: seq<string>, warnings: seq<string>)
    requires Judged(env, ids, |ids|, checks, blockers, warnings, false)
    requires forall id :: id in ids <==> id in Required(env.checks)
    ensures Reports(env, checks)
  {
    hide Judge, OnlyWarns;
    forall i | 0 <= i < |ids| ensures checks[i].verdict == Judge(env, checks[i].checkId) {
      assert JudgedOne(env, ids[i], checks[i].verdict, false);
    }
    forall id <- Required(env.checks) ensures exists c <- checks :: c.checkId == id {
      var i :| 0 <= i < |ids| && ids[i] == id;
      assert checks[i] in checks;
    }
  }

  lemma ChecksInOrder(ids: seq<string>, checks: seq<CheckResult>)
    requires Increasing(ids) && |checks| <= |ids| && forall i :: 0 <= i < |checks| ==> checks[i].checkId == ids[i]
    ensures InOrder(checks) && forall c <- checks :: c.checkId in ids
  {
    hide Before;
  }

  /** The list of required checks stands for their set. */
  lemma SameAnswer(env: Env, ids: seq<string>)
    requires IsRequiredIds(env.checks, ids)
    ensures forall id :: id in ids <==> id in Required(env.checks)
    ensures forall d, v :: FullAnswerFor(env, ids, d, v) ==> FullAnswer(env, d, v)
    ensures forall v :: Strongest(env, ids, v) && v.Valid() ==> StrongestRequired(env, v)
  {
    hide Judge, OnlyWarns, Rank;
    forall id ensures id in ids <==> id in Required(env.checks) {}
    forall v | Strongest(env, ids, v) && v.Valid() ensures StrongestRequired(env, v) {
      if v != Pass {
        var id :| id in ids && Judge(env, id) == v;
        assert id in Required(env.checks);
      }
    }
  }

  /** The completion gate. However early its budget ends, it never allows what
      the unlimited gate would block. */
  method EvaluateWithBudget(ctx: Context, env: Env) returns (result: GateResult)
    requires ConfigOk(env.checks)
    modifies ctx
    ensures ctx.Later()
    ensures old(ctx.expired) && Required(env.checks) != {} ==> result.decision == Block
    ensures GateResultOk(result)
    ensures !ctx.expired ==> FullAnswer(env, result.decision, result.verdict)
    ensures result.decision == Allow ==> FullAnswer(env, Allow, result.verdict)
    ensures InOrder(result.checks) && forall c <- result.checks :: c.checkId in Required(env.checks)
    ensures !ctx.expired ==> Reports(env, result.checks)
  {
    hide Judge, OnlyWarns, Remembers, ConfigOk, Judged, FullAnswerFor, FullAnswer, Reports, InOrder, BlockReason,
        WarningMessage, IsRequiredIds, Increasing;
    var cache := new FingerprintCache(env.h);
    StillRemembers(env, cache.results, ctx.expired);
    var required := RequiredIds(env.checks);
    var checks, blockers, warnings := EvaluateChecks(ctx, cache, env, required);
    if Judged(env, required, |required|, checks, blockers, warnings, ctx.expired) {
      JudgedValid(env, required, |required|, checks, blockers, warnings, ctx.expired);
      if blockers == [] || !ctx.expired { Answered(env, required, checks, blockers, warnings, ctx.expired); }
    }
    SameAnswer(env, required);
    ChecksInOrder(required, checks);
    if !ctx.expired { Reported(env, required, checks, blockers, warnings); }
    assert forall c <- checks :: c.verdict.Valid();
    result := GateResult(SCHEMA_VERSION, Allow, Pass, "", "", checks);
    if blockers != [] {
      var v := BlockedVerdict(checks);
      result := result.(decision := Block, verdict := v,
        reason := BlockReason(blockers));
      return;
    }
    if warnings != [] {
      result := result.(verdict := Inconclusive,
        systemMessage := WarningMessage(warnings));
    }
  }

  lemma StillRemembers(env: Env, results: map<string, FingerprintMemo.Answer>, expired: bool)
    requires results == map[]
    ensures Remembers(env.h, env.world, results, expired)
  {
  }

  // ---------- The incident's verdict ----------

  method AssessOne(env: Env, id: string) returns (v: Verdict)
    requires ConfigOk(env.checks)
    ensures v == Judge(env, id)
  {
    hide ConfigOk, Bound, VerifySignature, Remembers;
    var receipt := LoadLatest(env, id);
    if receipt.None? { return Inconclusive; }
    var signed := VerifyReceiptSignature(env.signer, receipt.value);
    if !signed { return Inconclusive; }
    if receipt.value.verdict == Fail { return Fail; }
    if receipt.value.verdict == Inconclusive { return Inconclusive; }
    VerifiedIsValid(env.signer, receipt.value);
    var background := new Context(false);
    var cache := new FingerprintCache(env.h);
    StillRemembers(env, cache.results, background.expired);
    var isFresh, reason := ValidateFreshContext(background, cache, env, receipt.value);
    v := if isFresh then Pass else Inconclusive;
  }

  lemma StrongestStep(env: Env, ids: seq<string>, i: nat, v: Verdict)
    requires i < |ids| && Strongest(env, ids[..i], v) && v.Valid()
    ensures Strongest(env, ids[..i + 1], StrongerVerdict(v, Judge(env, ids[i])))
  {
    hide Judge;
    assert ids[..i + 1] == ids[..i] + [ids[i]];
    assert ids[i] in ids[..i + 1];
    if v != Pass {
      var id :| id in ids[..i] && Judge(env, id) == v;
      assert id in ids[..i + 1];
    }
  }

  /** The incident looks at the same receipts without a budget. */
  method AssessReceipts(env: Env) returns (verdict: Verdict)
    requires ConfigOk(env.checks)
    ensures Required(env.checks) == {} ==> verdict == Inconclusive
    ensures Required(env.checks) != {} ==> StrongestRequired(env, verdict)
  {
    hide ConfigOk, IsRequiredIds, Increasing, Judge, Rank, StrongestRequired;
    verdict := Pass;
    var required := RequiredIds(env.checks);
    var i := 0;
    while i < |required|
      invariant 0 <= i <= |required|
      invariant Strongest(env, required[..i], verdict) && verdict.Valid()
    {
      var candidate := AssessOne(env, required[i]);
      StrongestStep(env, required, i, verdict);
      verdict := StrongerVerdict(verdict, candidate);
      i := i + 1;
    }
    assert required[..i] == required;
    SameAnswer(env, required);
    if required == [] {
      verdict := Inconclusive;
    } else {
      assert required[0] in Required(env.checks);
    }
  }

  /** With at least one required check, the gate's classification and the
      incident's fold agree on every set of receipts: both are the strongest
      verdict among the required checks. */
  lemma GateAndIncidentAgree(env: Env, decision: Decision, gate: Verdict, incident: Verdict)
    requires FullAnswer(env, decision, gate) && StrongestRequired(env, incident)
    ensures gate == incident
  {
    hide Judge;
  }

  /** Without required checks they differ: the gate passes, the incident does not. */
  lemma NoRequiredChecks(env: Env, decision: Decision, gate: Verdict)
    requires Required(env.checks) == {} && FullAnswer(env, decision, gate)
    ensures decision == Allow && gate == Pass
  {
  }

  /** A signed receipt for the check that says PASS and is still bound. */
  ghost predicate Passed(env: Env, id: string) {
    HasReceipt(env, id) && env.latest[id].verdict == Pass && Bound(env, env.latest[id])
  }

  /** What the gate's decision says about the receipts themselves: a check that is
      not declared optional opens it only with a signed receipt of its own that
      says INCONCLUSIVE, or says PASS and is still bound to the repository. */
  lemma AllowMeans(env: Env, decision: Decision, verdict: Verdict)
    requires FullAnswer(env, decision, verdict)
    ensures decision == Allow <==>
            forall id <- env.checks :: env.checks[id].required != Some(false) ==>
              Passed(env, id) || (HasReceipt(env, id) && env.latest[id].verdict == Inconclusive)
  {
    hide Bound, VerifySignature, SafeToken;
    forall id <- env.checks ensures env.checks[id].required != Some(false) <==> id in Required(env.checks) {}
  }

  /** FAIL means that some required check has a signed receipt that says so, and
      PASS that every one has passed. */
  lemma VerdictMeans(env: Env, verdict: Verdict)
    requires StrongestRequired(env, verdict)
    ensures verdict == Fail <==>
            exists id <- env.checks :: env.checks[id].required != Some(false)
                                       && HasReceipt(env, id) && env.latest[id].verdict == Fail
    ensures verdict == Pass <==>
            forall id <- env.checks :: env.checks[id].required != Some(false) ==> Passed(env, id)
    ensures verdict.Valid()
  {
    hide Bound, VerifySignature, SafeToken;
    forall id <- env.checks ensures env.checks[id].required != Some(false) <==> id in Required(env.checks) {}
  }

  /** What a PASS says about each required check. */
  lemma PassMeansBound(env: Env, decision: Decision, id: string)
    requires FullAnswer(env, decision, Pass) && id in Required(env.checks)
    ensures LoadLatest(env, id).Some? && LoadLatest(env, id).value.verdict == Pass
        && Bound(env, LoadLatest(env, id).value)
  {
    hide Bound, VerifySignature;
    assert Rank(Judge(env, id)) <= Rank(Pass);
  }
}
