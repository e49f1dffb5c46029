/** Locating the first observable divergence (internal/incident/incident.go) so
    that replays accept it (internal/replay/replay.go). */
module Divergence {
  import opened Model
  import opened Glob
  import opened Sorting

  /** A receipt whose signature was verified. */
  datatype Observed = Observed(id: string, checkId: string, argv: seq<string>, verdict: Verdict, startedAt: Time,
      finishedAt: Time)

  datatype Precision = ExactEvent | TimeWindow | Unlocated

  datatype Location = Location(precision: Precision, eventId: string, startEvent: string, endEvent: string,
      reason: string)

  const FIVE_MINUTES := 5 * 60 * 1_000_000_000

  // ---------- Which events belong to a session ----------

  function Attribute(e: Event, name: string): string {
    if name in e.attributes then e.attributes[name] else ""
  }

  predicate IsSubagent(e: Event) {
    Trim(Attribute(e, "agent_id")) != "" || Trim(Attribute(e, "agent_type")) != ""
  }

  predicate Blank(s: string) { forall c <- s :: IsSpace(c) }

  /** The start of a session that names no agent. */
  predicate IsRootStart(e: Event) {
    && e.eventType == SessionStarted
    && ("agent_id" in e.attributes ==> Blank(e.attributes["agent_id"]))
    && ("agent_type" in e.attributes ==> Blank(e.attributes["agent_type"]))
  }

  lemma RootStartTest(e: Event)
    ensures IsRootStart(e) <==> e.eventType == SessionStarted && !IsSubagent(e)
  {
    hide Trim, Blank;
    BlankTrimmed(Attribute(e, "agent_id"));
    BlankTrimmed(Attribute(e, "agent_type"));
    assert Blank("") by { BlankTrimmed(""); }
  }

  lemma BlankTrimmed(s: string)
    ensures Trim(s) == "" <==> Blank(s)
    ensures Blank("")
  {
    hide IsSpace;
    TrimCuts(s);
  }

  /** Everything from the latest root session start on, or all events. */
  method LatestSession(events: seq<Event>) returns (session: seq<Event>)
    ensures exists k :: 0 <= k <= |events| && session == events[k..]
              && (forall i :: k < i < |events| ==> !IsRootStart(events[i]))
              && (if k < |events| && IsRootStart(events[k]) then true
                  else k == 0 && forall e <- events :: !IsRootStart(e))
  {
    hide IsRootStart, IsSubagent;
    var i := |events| - 1;
    while i >= 0
      invariant -1 <= i < |events|
      invariant forall k :: i < k < |events| ==> !IsRootStart(events[k])
    {
      RootStartTest(events[i]);
      if events[i].eventType == SessionStarted && !IsSubagent(events[i]) { return events[i..]; }
      i := i - 1;
    }
    assert events[0..] == events;
    return events;
  }

  // ---------- Association of an event with a receipt ----------

  /** `parseArgv` decodes a JSON array of strings. */
  predicate Matches(parseArgv: string -> Option<seq<string>>, e: Event, r: Observed) {
    && e.eventType == ToolFinished && e.id != "" && e.exitCode.Some? && e.exitCode.value != 0
    && r.verdict == Fail && r.finishedAt != 0 && e.occurredAt != 0
    && r.finishedAt <= e.occurredAt <= r.finishedAt + FIVE_MINUTES
    && (Attribute(e, "receipt_id") != "" ==> Attribute(e, "receipt_id") == r.id)
    && Attribute(e, "check_id") == r.checkId && Attribute(e, "verdict") == "FAIL"
    && parseArgv(Attribute(e, "argv")) == Some(r.argv)
  }

  method SameArgv(a: seq<string>, b: seq<string>) returns (same: bool)
    ensures same <==> a == b
  {
    if |a| != |b| { return false; }
    var i := 0;
    while i < |a|
      invariant 0 <= i <= |a| && a[..i] == b[..i]
    {
      if a[i] != b[i] { return false; }
      i := i + 1;
    }
    same := true;
  }

  method EventMatchesReceipt(parseArgv: string -> Option<seq<string>>, event: Event, receipt: Observed)
      returns (matches: bool)
    ensures matches <==> Matches(parseArgv, event, receipt)
  {
    if event.eventType != ToolFinished || event.id == "" || event.exitCode.None? || event.exitCode.value == 0 {
      return false;
    }
    if receipt.verdict != Fail || receipt.finishedAt == 0 || event.occurredAt == 0 { return false; }
    if event.occurredAt < receipt.finishedAt || event.occurredAt > receipt.finishedAt + 300_000_000_000 {
      return false;
    }
    var claimedId := Attribute(event, "receipt_id");
    if claimedId != "" && claimedId != receipt.id { return false; }
    if Attribute(event, "check_id") != receipt.checkId || Attribute(event, "verdict") != "FAIL" { return false; }
    var argv := parseArgv(Attribute(event, "argv"));
    if argv.None? { return false; }
    matches := SameArgv(argv.value, receipt.argv);
  }

  predicate MatchesAny(parseArgv: string -> Option<seq<string>>, e: Event, receipts: seq<Observed>) {
    exists r <- receipts :: r.verdict == Fail && Matches(parseArgv, e, r)
  }

  // ---------- The order of events ----------

  predicate EventBefore(a: Event, b: Event) {
    if (a.occurredAt == 0) != (b.occurredAt == 0) then a.occurredAt != 0 else a.occurredAt < b.occurredAt
  }

  predicate FinishedBefore(a: Observed, b: Observed) { a.finishedAt < b.finishedAt }

  /** Earlier in time, or at the same time and earlier in the ledger. */
  predicate Precedes(events: seq<Event>, i: nat, j: nat)
    requires i < |events| && j < |events|
  {
    events[i].occurredAt < events[j].occurredAt || (events[i].occurredAt == events[j].occurredAt && i < j)
  }

  /** Between events with a time, this is the order they are sorted by. */
  lemma SortedByTime(events: seq<Event>, i: nat, j: nat)
    requires i < |events| && j < |events| && events[i].occurredAt != 0 && events[j].occurredAt != 0
    ensures Goes(EventBefore, events, i, j) <==> Precedes(events, i, j)
  {
  }

  lemma Orders()
    ensures WeakOrder(EventBefore) && WeakOrder(FinishedBefore)
  {
  }

  /** `events[i]` satisfies `p`, and no other such event comes before it, in
      time and then in ledger order. */
  ghost predicate Earliest(events: seq<Event>, p: Event -> bool, i: nat) {
    && i < |events| && p(events[i])
    && forall j :: 0 <= j < |events| && j != i && p(events[j]) ==> Precedes(events, i, j)
  }

  ghost predicate Latest(events: seq<Event>, p: Event -> bool, i: nat) {
    && i < |events| && p(events[i])
    && forall j :: 0 <= j < |events| && j != i && p(events[j]) ==> Precedes(events, j, i)
  }

  /** Receipt `m` fails, and every other failing one finished later, or at the
      same time and comes later in the list. */
  ghost predicate EarliestFailing(receipts: seq<Observed>, m: nat) {
    && m < |receipts| && receipts[m].verdict == Fail
    && forall n :: 0 <= n < |receipts| && n != m && receipts[n].verdict == Fail ==>
         || receipts[m].finishedAt < receipts[n].finishedAt
         || (receipts[m].finishedAt == receipts[n].finishedAt && m < n)
  }

  /** Every event that satisfies `p` has a time. */
  ghost predicate Timed(p: Event -> bool) {
    forall e :: p(e) ==> e.occurredAt != 0
  }

  // ---------- Enclosing events ----------

  predicate Usable(e: Event) { e.id != "" && e.occurredAt != 0 }

  function NotAfter(t: Time): Event -> bool { (e: Event) => Usable(e) && e.occurredAt <= t }

  function NotBefore(t: Time): Event -> bool { (e: Event) => Usable(e) && e.occurredAt >= t }

  predicate ValidInterval(startedAt: Time, finishedAt: Time) {
    startedAt != 0 && finishedAt != 0 && startedAt <= finishedAt
  }

  /** Index of the last event satisfying `p`, -1 when there is none. */
  ghost predicate LastIndex(events: seq<Event>, p: Event -> bool, i: int) {
    && -1 <= i < |events| && (i >= 0 ==> p(events[i]))
    && forall k :: i < k < |events| ==> !p(events[k])
  }

  ghost predicate FirstIndex(events: seq<Event>, p: Event -> bool, i: int) {
    && -1 <= i < |events| && (i >= 0 ==> p(events[i]))
    && forall k :: 0 <= k < (if i < 0 then |events| else i) ==> !p(events[k])
  }

  ghost function FindLast(events: seq<Event>, p: Event -> bool): (i: int)
    ensures LastIndex(events, p, i)
  {
    if events == [] then -1
    else if p(events[|events| - 1]) then |events| - 1
    else FindLast(events[..|events| - 1], p)
  }

  ghost function FindFirst(events: seq<Event>, p: Event -> bool): (i: int)
    ensures FirstIndex(events, p, i)
  {
    if events == [] then -1
    else
      var before := FindFirst(events[..|events| - 1], p);
      if before < 0 && p(events[|events| - 1]) then |events| - 1 else before
  }

  method EnclosingEvents(events: seq<Event>, startedAt: Time, finishedAt: Time) returns (start: string, end: string)
    ensures var i, j := FindLast(events, NotAfter(startedAt)), FindFirst(events, NotBefore(finishedAt));
            if ValidInterval(startedAt, finishedAt) && 0 <= i < j
            then start == events[i].id != "" && end == events[j].id != ""
            else start == "" && end == ""
  {
    var startIndex, endIndex := -1, -1;
    var k := 0;
    while k < |events|
      invariant 0 <= k <= |events|
      invariant startIndex == FindLast(events[..k], NotAfter(startedAt))
      invariant endIndex == FindFirst(events[..k], NotBefore(finishedAt))
    {
      assert events[..k + 1][..k] == events[..k];
      if events[k].id != "" && events[k].occurredAt != 0 {
        if events[k].occurredAt <= startedAt { startIndex := k; }
        if endIndex < 0 && events[k].occurredAt >= finishedAt { endIndex := k; }
      }
      k := k + 1;
    }
    assert events[..k] == events;
    if startedAt == 0 || finishedAt == 0 || finishedAt < startedAt { return "", ""; }
    if startIndex < 0 || endIndex < 0 || startIndex >= endIndex { return "", ""; }
    return events[startIndex].id, events[endIndex].id;
  }

  // ---------- Locating the divergence ----------

  const EXACT_REASON := "This event"
    + " is explicitly associated with a verified failing BeforeDone receipt."
  const WINDOW_REASON := "A verified"
    + " failing BeforeDone check ran entirely between these two observed events,"
    + " but no event is explicitly linked to its receipt."
  const NO_REASON := "No event"
    + " provides enough evidence to locate a divergence."

  /** An exact location names the earliest event that matches a failing receipt. */
  ghost predicate ExactAt(parseArgv: string -> Option<seq<string>>, events: seq<Event>, receipts: seq<Observed>,
      d: Location, i: nat) {
    && Earliest(events, e => MatchesAny(parseArgv, e, receipts), i)
    && d == Location(ExactEvent, events[i].id, "", "", EXACT_REASON)
  }

  /** The latest event not after the start and the earliest not before the end
      of receipt `m`, the earliest-finished failing one, in this order. */
  ghost predicate Encloses(events: seq<Event>, receipts: seq<Observed>, m: nat, i: nat, j: nat) {
    && EarliestFailing(receipts, m) && ValidInterval(receipts[m].startedAt, receipts[m].finishedAt)
    && Latest(events, NotAfter(receipts[m].startedAt), i)
    && Earliest(events, NotBefore(receipts[m].finishedAt), j)
    && i != j && Precedes(events, i, j)
  }

  ghost predicate WindowAt(events: seq<Event>, receipts: seq<Observed>, d: Location, m: nat, i: nat, j: nat) {
    && Encloses(events, receipts, m, i, j)
    && d == Location(TimeWindow, "", events[i].id, events[j].id, WINDOW_REASON)
  }

  /** The contract replays check. */
  predicate LoadCaseOk(d: Location) {
    && (match d.precision
        case ExactEvent => d.eventId != "" && d.startEvent == "" && d.endEvent == ""
        case TimeWindow => d.eventId == "" && d.startEvent != "" && d.endEvent != ""
        case Unlocated => d.eventId == "" && d.startEvent == "" && d.endEvent == "")
    && Trim(d.reason) != ""
  }

  /** The exact event, searched in time order. */
  method FindExact(parseArgv: string -> Option<seq<string>>, ordered: seq<Event>, receipts: seq<Observed>)
      returns (k: int)
    ensures FirstIndex(ordered, e => MatchesAny(parseArgv, e, receipts), k)
  {
    hide Matches;
    k := 0;
    while k < |ordered|
      invariant 0 <= k <= |ordered|
      invariant forall i :: 0 <= i < k ==> !MatchesAny(parseArgv, ordered[i], receipts)
    {
      var m := 0;
      while m < |receipts|
        invariant 0 <= m <= |receipts|
        invariant forall n :: 0 <= n < m ==>
                    !(receipts[n].verdict == Fail && Matches(parseArgv, ordered[k], receipts[n]))
      {
        if receipts[m].verdict == Fail {
          var matches := EventMatchesReceipt(parseArgv, ordered[k], receipts[m]);
          if matches {
            assert receipts[m] in receipts;
            return;
          }
        }
        m := m + 1;
      }
      assert !MatchesAny(parseArgv, ordered[k], receipts);
      k := k + 1;
    }
    k := -1;
  }

  /** The failing receipts, in their order. */
  method Failures(receipts: seq<Observed>) returns (failures: seq<Observed>, ghost from: seq<nat>)
    ensures |from| == |failures|
    ensures forall k :: 0 <= k < |from| ==>
              from[k] < |receipts| && failures[k] == receipts[from[k]] && failures[k].verdict == Fail
    ensures forall k, l :: 0 <= k < l < |from| ==> from[k] < from[l]
    ensures forall m :: 0 <= m < |receipts| && receipts[m].verdict == Fail ==> m in from
  {
    failures, from := [], [];
    var m := 0;
    while m < |receipts|
      invariant 0 <= m <= |receipts|
      invariant |from| == |failures|
      invariant forall k :: 0 <= k < |from| ==>
                  from[k] < m && failures[k] == receipts[from[k]] && failures[k].verdict == Fail
      invariant forall k, l :: 0 <= k < l < |from| ==> from[k] < from[l]
      invariant forall n :: 0 <= n < m && receipts[n].verdict == Fail ==> n in from
    {
      if receipts[m].verdict == Fail { failures, from := failures + [receipts[m]], from + [m]; }
      m := m + 1;
    }
  }

  // ---------- From sorted positions back to the ledger ----------

  /** `ordered` is `events` stably sorted; `perm` tells where each came from. */
  ghost predicate SortedFrom(events: seq<Event>, ordered: seq<Event>, perm: seq<nat>) {
    && Positions(perm, |events|) && |ordered| == |events|
    && Ranked(EventBefore, events, perm)
    && forall k :: 0 <= k < |events| ==> ordered[k] == events[perm[k]]
  }

  lemma SortEvents(events: seq<Event>) returns (perm: seq<nat>)
    ensures SortedFrom(events, Sort(EventBefore, events), perm)
  {
    hide Sort;
    Orders();
    perm := SortIsStable(EventBefore, events);
  }

  lemma FirstIsEarliest(events: seq<Event>, ordered: seq<Event>, perm: seq<nat>, p: Event -> bool, k: int)
    requires SortedFrom(events, ordered, perm) && FirstIndex(ordered, p, k) && Timed(p)
    ensures k >= 0 ==> k < |perm| && Earliest(events, p, perm[k])
    ensures k < 0 ==> forall i :: 0 <= i < |events| ==> !p(events[i])
  {
    hide EventBefore, Goes, Precedes;
    forall j | 0 <= j < |events| && p(events[j]) ensures k >= 0
        && (j == perm[k] || Precedes(events, perm[k], j)) {
      assert j in perm;
      var l :| 0 <= l < |perm| && perm[l] == j;
      assert p(ordered[l]);
      if l != k { SortedByTime(events, perm[k], j); }
    }
  }

  lemma LastIsLatest(events: seq<Event>, ordered: seq<Event>, perm: seq<nat>, p: Event -> bool, k: int)
    requires SortedFrom(events, ordered, perm) && LastIndex(ordered, p, k) && Timed(p)
    ensures k >= 0 ==> k < |perm| && Latest(events, p, perm[k])
    ensures k < 0 ==> forall i :: 0 <= i < |events| ==> !p(events[i])
  {
    hide EventBefore, Goes, Precedes;
    forall j | 0 <= j < |events| && p(events[j]) ensures k >= 0
        && (j == perm[k] || Precedes(events, j, perm[k])) {
      assert j in perm;
      var l :| 0 <= l < |perm| && perm[l] == j;
      assert p(ordered[l]);
      if l != k { SortedByTime(events, j, perm[k]); }
    }
  }

  lemma GoesOneWay<T(!new)>(less: (T, T) -> bool, s: seq<T>, i: nat, j: nat)
    requires WeakOrder(less) && i < |s| && j < |s| && Goes(less, s, i, j)
    ensures i != j && !Goes(less, s, j, i)
  {
  }

  lemma EarliestUnique(events: seq<Event>, p: Event -> bool, i: nat, j: nat)
    requires Earliest(events, p, i) && Earliest(events, p, j)
    ensures i == j
  {
  }

  lemma LatestUnique(events: seq<Event>, p: Event -> bool, i: nat, j: nat)
    requires Latest(events, p, i) && Latest(events, p, j)
    ensures i == j
  {
  }

  lemma FailingUnique(receipts: seq<Observed>, m: nat, n: nat)
    requires EarliestFailing(receipts, m) && EarliestFailing(receipts, n)
    ensures m == n
  {
  }

  /** The first of the sorted failures is the earliest-finished one. */
  lemma FirstFailure(receipts: seq<Observed>, failures: seq<Observed>, from: seq<nat>) returns (m: nat)
    requires |from| == |failures| > 0
    requires forall k :: 0 <= k < |from| ==>
               from[k] < |receipts| && failures[k] == receipts[from[k]] && failures[k].verdict == Fail
    requires forall k, l :: 0 <= k < l < |from| ==> from[k] < from[l]
    requires forall n :: 0 <= n < |receipts| && receipts[n].verdict == Fail ==> n in from
    ensures EarliestFailing(receipts, m) && Sort(FinishedBefore, failures)[0] == receipts[m]
  {
    hide Sort;
    Orders();
    var perm := SortIsStable(FinishedBefore, failures);
    m := from[perm[0]];
    forall n | 0 <= n < |receipts| && n != m && receipts[n].verdict == Fail
        ensures receipts[m].finishedAt < receipts[n].finishedAt
            || (receipts[m].finishedAt == receipts[n].finishedAt && m < n) {
      var k :| 0 <= k < |from| && from[k] == n;
      assert k in perm;
      var l :| 0 <= l < |perm| && perm[l] == k;
      assert Goes(FinishedBefore, failures, perm[0], perm[l]);
    }
  }

  /** What the search in sorted order says about the ledger. */
  lemma WindowExactly(events: seq<Event>, ordered: seq<Event>, perm: seq<nat>, receipts: seq<Observed>, m: nat,
      i: int, j: int)
    requires SortedFrom(events, ordered, perm) && EarliestFailing(receipts, m)
    requires LastIndex(ordered, NotAfter(receipts[m].startedAt), i)
        && FirstIndex(ordered, NotBefore(receipts[m].finishedAt), j)
    ensures ValidInterval(receipts[m].startedAt, receipts[m].finishedAt) && 0 <= i < j ==>
            Encloses(events, receipts, m, perm[i], perm[j])
    ensures (exists n, k, l :: Encloses(events, receipts, n, k, l)) ==>
            ValidInterval(receipts[m].startedAt, receipts[m].finishedAt) && 0 <= i < j
  {
    hide EventBefore, Goes, Precedes;
    LastIsLatest(events, ordered, perm, NotAfter(receipts[m].startedAt), i);
    FirstIsEarliest(events, ordered, perm, NotBefore(receipts[m].finishedAt), j);
    if n, k, l :| Encloses(events, receipts, n, k, l) {
      FailingUnique(receipts, m, n);
      LatestUnique(events, NotAfter(receipts[m].startedAt), k, perm[i]);
      EarliestUnique(events, NotBefore(receipts[m].finishedAt), l, perm[j]);
      InOrder(events, ordered, perm, i, j);
    }
    if 0 <= i < j {
      SortedByTime(events, perm[i], perm[j]);
      DifferentPlaces(events, perm, i, j);
    }
  }

  lemma DifferentPlaces(events: seq<Event>, perm: seq<nat>, i: nat, j: nat)
    requires Positions(perm, |events|) && Ranked(EventBefore, events, perm) && i < j < |perm|
    ensures perm[i] != perm[j]
  {
    hide EventBefore, Goes;
    Orders();
    GoesOneWay(EventBefore, events, perm[i], perm[j]);
  }

  lemma InOrder(events: seq<Event>, ordered: seq<Event>, perm: seq<nat>, i: nat, j: nat)
    requires SortedFrom(events, ordered, perm) && i < |perm| && j < |perm|
    requires events[perm[i]].occurredAt != 0 && events[perm[j]].occurredAt != 0
    requires perm[i] != perm[j] && Precedes(events, perm[i], perm[j])
    ensures i < j
  {
    hide EventBefore, Goes;
    if j < i { SortedByTime(events, perm[j], perm[i]); }
  }

  lemma TrimKeepsText(s: string)
    requires s != [] && !IsSpace(s[0])
    ensures Trim(s) != ""
  {
    TrimRightKeeps(s);
  }

  lemma {:induction false} TrimRightKeeps(s: string)
    requires s != [] && !IsSpace(s[0])
    ensures TrimRight(s) != ""
  {
    if IsSpace(s[|s| - 1]) { TrimRightKeeps(s[..|s| - 1]); }
  }

  lemma ReasonsNotBlank()
    ensures Trim(EXACT_REASON) != "" && Trim(WINDOW_REASON) != "" && Trim(NO_REASON) != ""
  {
    hide Trim, IsSpace;
    LettersAreText();
    FirstLetters();
    TrimKeepsText(EXACT_REASON);
    TrimKeepsText(WINDOW_REASON);
    TrimKeepsText(NO_REASON);
  }

  lemma FirstLetters()
    ensures EXACT_REASON != "" && EXACT_REASON[0] == 'T'
    ensures WINDOW_REASON != "" && WINDOW_REASON[0] == 'A'
    ensures NO_REASON != "" && NO_REASON[0] == 'N'
  {
  }

  lemma LettersAreText()
    ensures !IsSpace('T') && !IsSpace('A') && !IsSpace('N')
  {
  }

  /** The location is optimal: exact whenever some event matches a failing
      receipt, and then the earliest such event; otherwise the tightest window
      around the earliest-finished failing receipt, whenever there is one. */
  method LocateDivergence(parseArgv: string -> Option<seq<string>>, events: seq<Event>, receipts: seq<Observed>)
      returns (d: Location)
    ensures LoadCaseOk(d)
    ensures d.precision == ExactEvent <==> exists e <- events :: MatchesAny(parseArgv, e, receipts)
    ensures d.precision == ExactEvent ==> exists i :: ExactAt(parseArgv, events, receipts, d, i)
    ensures d.precision == TimeWindow <==>
            !(exists e <- events :: MatchesAny(parseArgv, e, receipts)) && exists m, i,
                j :: Encloses(events, receipts, m, i, j)
    ensures d.precision == TimeWindow ==> exists m, i, j :: WindowAt(events, receipts, d, m, i, j)
    ensures d.precision == Unlocated ==> d == Location(Unlocated, "", "", "", NO_REASON)
  {
    hide MatchesAny, EventBefore, FinishedBefore, Sort, Trim, Encloses, Earliest, Usable, NotAfter, NotBefore,
        SortedFrom, Goes, Precedes;
    ReasonsNotBlank();
    var ordered := Sort(EventBefore, events);
    ghost var perm := SortEvents(events);
    var k := FindExact(parseArgv, ordered, receipts);
    ExactExactly(parseArgv, events, ordered, perm, receipts, k);
    if k >= 0 {
      d := Location(ExactEvent, ordered[k].id, "", "", EXACT_REASON);
      return;
    }
    var failures, from := Failures(receipts);
    if |failures| > 0 {
      ghost var m := FirstFailure(receipts, failures, from);
      var receipt := Sort(FinishedBefore, failures)[0];
      var start, end := EnclosingEvents(ordered, receipt.startedAt, receipt.finishedAt);
      ghost var i, j := FindLast(ordered, NotAfter(receipt.startedAt)),
          FindFirst(ordered, NotBefore(receipt.finishedAt));
      WindowExactly(events, ordered, perm, receipts, m, i, j);
      if start != "" && end != "" {
        WindowNamed(events, ordered, perm, i, j);
        d := Location(TimeWindow, "", start, end, WINDOW_REASON);
        assert WindowAt(events, receipts, d, m, perm[i], perm[j]);
        return;
      }
    } else {
      NoFailure(events, receipts, from);
    }
    d := Location(Unlocated, "", "", "", NO_REASON);
  }

  lemma ExactExactly(parseArgv: string -> Option<seq<string>>, events: seq<Event>, ordered: seq<Event>,
      perm: seq<nat>, receipts: seq<Observed>, k: int)
    requires SortedFrom(events, ordered, perm) && FirstIndex(ordered, e => MatchesAny(parseArgv, e, receipts), k)
    ensures k >= 0 <==> exists e <- events :: MatchesAny(parseArgv, e, receipts)
    ensures k >= 0 ==> k < |ordered| && ordered[k].id != ""
                       && var exact := Location(ExactEvent, ordered[k].id, "", "", EXACT_REASON);
                          exists i :: ExactAt(parseArgv, events, receipts, exact, i)
  {
    hide EventBefore, Goes;
    FirstIsEarliest(events, ordered, perm, e => MatchesAny(parseArgv, e, receipts), k);
    if k >= 0 {
      var d := Location(ExactEvent, ordered[k].id, "", "", EXACT_REASON);
      assert events[perm[k]] in events;
      assert ExactAt(parseArgv, events, receipts, d, perm[k]);
    }
  }

  lemma WindowNamed(events: seq<Event>, ordered: seq<Event>, perm: seq<nat>, i: int, j: int)
    requires SortedFrom(events, ordered, perm) && 0 <= i < j < |ordered|
    ensures j < |perm| && perm[i] < |events| && perm[j] < |events|
    ensures ordered[i] == events[perm[i]] && ordered[j] == events[perm[j]]
  {
  }

  lemma NoFailure(events: seq<Event>, receipts: seq<Observed>, from: seq<nat>)
    requires from == [] && forall n :: 0 <= n < |receipts| && receipts[n].verdict == Fail ==> n in from
    ensures !(exists m, i, j :: Encloses(events, receipts, m, i, j))
  {
  }

  // ---------- When there is a window ----------

  lemma EarliestExists(events: seq<Event>, p: Event -> bool) returns (i: nat)
    requires Timed(p) && exists e <- events :: p(e)
    ensures Earliest(events, p, i)
  {
    hide Sort, SortedFrom;
    var perm := SortEvents(events);
    var k := FindFirst(Sort(EventBefore, events), p);
    FirstIsEarliest(events, Sort(EventBefore, events), perm, p, k);
    i := perm[k];
  }

  lemma LatestExists(events: seq<Event>, p: Event -> bool) returns (i: nat)
    requires Timed(p) && exists e <- events :: p(e)
    ensures Latest(events, p, i)
  {
    hide Sort, SortedFrom;
    var perm := SortEvents(events);
    var k := FindLast(Sort(EventBefore, events), p);
    LastIsLatest(events, Sort(EventBefore, events), perm, p, k);
    i := perm[k];
  }

  /** There are usable events on both sides of the run, and it did not start
      and finish at the very time of one. */
  ghost predicate Enclosed(events: seq<Event>, startedAt: Time, finishedAt: Time) {
    && ValidInterval(startedAt, finishedAt)
    && (exists e <- events :: NotAfter(startedAt)(e)) && (exists e <- events :: NotBefore(finishedAt)(e))
    && !(startedAt == finishedAt && exists e <- events :: Usable(e) && e.occurredAt == startedAt)
  }

  /** The earliest-finished failing receipt has a window exactly when its run is enclosed. */
  lemma WindowExists(events: seq<Event>, receipts: seq<Observed>, m: nat)
    requires EarliestFailing(receipts, m)
    ensures (exists i: nat, j: nat :: Encloses(events, receipts, m, i, j))
            <==> Enclosed(events, receipts[m].startedAt, receipts[m].finishedAt)
  {
    var from, to := receipts[m].startedAt, receipts[m].finishedAt;
    hide EarliestFailing;
    if i: nat, j: nat :| Encloses(events, receipts, m, i, j) {
      assert events[i] in events && events[j] in events;
      if from == to { BoundariesAtInstant(events, from, i, j); }
    }
    if Enclosed(events, from, to) {
      var i := LatestExists(events, NotAfter(from));
      var j := EarliestExists(events, NotBefore(to));
      assert events[i] in events;
      assert events[i].occurredAt < events[j].occurredAt;
      assert Encloses(events, receipts, m, i, j);
    }
  }

  /** An event at the instant of the run is both boundaries, or one past the other. */
  lemma BoundariesAtInstant(events: seq<Event>, t: Time, i: nat, j: nat)
    requires Latest(events, NotAfter(t), i) && Earliest(events, NotBefore(t), j)
    requires i != j && Precedes(events, i, j)
    ensures forall e <- events :: !(Usable(e) && e.occurredAt == t)
  {
  }

  function EventAt(id: string, time: Time): Event {
    Event(1, id, time, ToolFinished, "", "", "", "", "", None, "", map[])
  }

  /** A failing check that starts and finishes at time 10, with events at 9, 10
      and 11: enclosed on both sides, and yet no window. */
  lemma SameInstantHasNoWindow(i: nat, j: nat, m: nat)
    ensures var events := [EventAt("a", 9), EventAt("b", 10), EventAt("c", 11)];
            var receipts := [Observed("r", "check", ["make"], Fail, 10, 10)];
            && events[0].occurredAt < receipts[0].startedAt && receipts[0].finishedAt < events[2].occurredAt
            && !Encloses(events, receipts, m, i, j)
  {
    hide Goes;
    var events := [EventAt("a", 9), EventAt("b", 10), EventAt("c", 11)];
    var receipts := [Observed("r", "check", ["make"], Fail, 10, 10)];
    if Encloses(events, receipts, m, i, j) {
      assert events[1] in events && Usable(events[1]);
      BoundariesAtInstant(events, 10, i, j);
    }
  }
}
