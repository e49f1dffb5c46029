/** Replaying a case: what a stored case must satisfy, and verifying it with the
    checks that are configured now (internal/replay/replay.go). */
module Replay {
  import opened Model
  import opened SegmentNames
  import opened Sorting
  import opened Glob
  import opened Gate
  import opened Divergence

  datatype ReplayCase = ReplayCase(
    schemaVersion: int, id: string, verdict: Verdict, divergence: Location, observedCommands: seq<seq<string>>)

  predicate CaseOk(c: ReplayCase) {
    c.schemaVersion == SCHEMA_VERSION && c.id != "" && c.verdict.Valid() && LoadCaseOk(c.divergence)
  }

  /** The checks of loading a stored case. */
  method LoadCase(c: ReplayCase) returns (ok: bool)
    ensures ok <==> CaseOk(c)
  {
    hide Trim;
    if c.schemaVersion != 1 || c.id == "" || c.verdict.OtherVerdict? { return false; }
    var d := c.divergence;
    match d.precision {
      case ExactEvent => if d.eventId == "" || d.startEvent != "" || d.endEvent != "" { return false; }
      case TimeWindow => if d.eventId != "" || d.startEvent == "" || d.endEvent == "" { return false; }
      case Unlocated => if d.eventId != "" || d.startEvent != "" || d.endEvent != "" { return false; }
    }
    ok := Trim(d.reason) != "";
  }

  /** A case built from a located divergence is always loadable. */
  method BuildCase(parseArgv: string -> Option<seq<string>>, id: string, verdict: Verdict, events: seq<Event>,
                   receipts: seq<Observed>, observedCommands: seq<seq<string>>) returns (c: ReplayCase)
    requires id != "" && verdict.Valid()
    ensures CaseOk(c)
  {
    hide LoadCaseOk, Encloses, ExactAt, WindowAt, MatchesAny;
    var divergence := LocateDivergence(parseArgv, events, receipts);
    c := ReplayCase(SCHEMA_VERSION, id, verdict, divergence, observedCommands);
  }

  datatype Plan = Plan(checkId: string, argv: seq<string>, workingDirectory: string)

  datatype Verification = Verification(dryRun: bool, plans: seq<Plan>, results: seq<Verdict>, verdict: Verdict)

  function PlanOf(checks: map<string, Check>, id: string): Plan
    requires id in checks
  {
    var wd := checks[id].workingDirectory;
    Plan(id, checks[id].argv, if wd == "" then "." else wd)
  }

  /** The plans are those of the selected checks as configured now, by name. */
  ghost predicate PlansOf(checks: map<string, Check>, selected: string, plans: seq<Plan>) {
    && (forall i, j :: 0 <= i < j < |plans| ==> Before(plans[i].checkId, plans[j].checkId))
    && (forall i :: 0 <= i < |plans| ==> plans[i].checkId in checks && plans[i] == PlanOf(checks, plans[i].checkId))
    && (forall id <- checks ::
         (selected == "" || id == selected) <==> exists i :: 0 <= i < |plans| && plans[i].checkId == id)
  }

  ghost predicate StrongestOf(results: seq<Verdict>, v: Verdict) {
    && (forall r <- results :: Rank(r) <= Rank(v))
    && (v == Pass || v in results)
  }

  method SelectedIds(checks: map<string, Check>, selected: string) returns (ids: seq<string>)
    ensures Increasing(ids)
    ensures forall id :: id in ids <==> id in checks && (selected == "" || id == selected)
  {
    hide Before;
    ids := [];
    var todo := checks.Keys;
    while todo != {}
      invariant todo <= checks.Keys && NoRepeats(ids)
      invariant forall id <- ids :: id in checks && (selected == "" || id == selected) && id !in todo
      invariant forall id <- checks :: selected == "" || id == selected ==> id in ids || id in todo
    {
      var id :| id in todo;
      if selected == "" || id == selected { ids := ids + [id]; }
      todo := todo - {id};
    }
    SortedStrings(ids);
    SortKeepsElements(Before, ids);
    ids := Sort(Before, ids);
  }

  method BuildPlans(checks: map<string, Check>, ids: seq<string>) returns (plans: seq<Plan>)
    requires forall id <- ids :: id in checks
    ensures |plans| == |ids| && forall i :: 0 <= i < |ids| ==> plans[i] == PlanOf(checks, ids[i])
  {
    plans := [];
    var i := 0;
    while i < |ids|
      invariant 0 <= i <= |ids| == |ids| && |plans| == i
      invariant forall k :: 0 <= k < i ==> plans[k] == PlanOf(checks, ids[k])
    {
      var directory := checks[ids[i]].workingDirectory;
      if directory == "" { directory := "."; }
      plans := plans + [Plan(ids[i], checks[ids[i]].argv, directory)];
      i := i + 1;
    }
  }

  lemma PlansAre(checks: map<string, Check>, selected: string, ids: seq<string>, plans: seq<Plan>)
    requires Increasing(ids) && forall id :: id in ids <==> id in checks && (selected == "" || id == selected)
    requires |plans| == |ids| && forall i :: 0 <= i < |ids| ==> ids[i] in checks && plans[i] == PlanOf(checks, ids[i])
    ensures PlansOf(checks, selected, plans)
  {
    hide Before;
    forall id <- checks
      ensures (selected == "" || id == selected) <==> exists i :: 0 <= i < |plans| && plans[i].checkId == id
    {
      if id in ids {
        var i :| 0 <= i < |ids| && ids[i] == id;
        assert plans[i].checkId == id;
      }
      forall i | 0 <= i < |plans| && plans[i].checkId == id ensures id in ids { assert ids[i] == id; }
    }
  }

  /** Verifying a case runs the current configuration's checks, never a command
      from the case, and reports the strongest of their verdicts. */
  method Verify(c: ReplayCase, checks: map<string, Check>, selected: string, execute: bool, run: Plan -> Verdict)
    returns (r: Option<Verification>)
    requires forall p :: run(p).Valid()
    ensures r.Some? <==> CaseOk(c) && (selected == "" || selected in checks)
    ensures r.Some? ==> PlansOf(checks, selected, r.value.plans) && r.value.dryRun == !execute
    ensures r.Some? && !execute ==> r.value.results == [] && r.value.verdict == Inconclusive
    ensures r.Some? && execute ==>
            && |r.value.results| == |r.value.plans|
            && (forall i :: 0 <= i < |r.value.plans| ==> r.value.results[i] == run(r.value.plans[i]))
            && StrongestOf(r.value.results, r.value.verdict)
  {
    hide LoadCaseOk, Before, PlansOf;
    var loadable := LoadCase(c);
    if !loadable { return None; }
    if selected != "" && selected !in checks { return None; }
    var ids := SelectedIds(checks, selected);
    var plans := BuildPlans(checks, ids);
    PlansAre(checks, selected, ids, plans);
    if !execute { return Some(Verification(true, plans, [], Inconclusive)); }
    var overall := Pass;
    var results: seq<Verdict> := [];
    var i := 0;
    while i < |plans|
      invariant 0 <= i <= |plans| && |results| == i
      invariant forall k :: 0 <= k < i ==> results[k] == run(plans[k])
      invariant StrongestOf(results, overall) && overall.Valid()
    {
      var result := run(plans[i]);
      results := results + [result];
      if result == Fail {
        overall := Fail;
      } else if result == Inconclusive && overall != Fail {
        overall := Inconclusive;
      }
      i := i + 1;
    }
    r := Some(Verification(false, plans, results, overall));
  }
}
