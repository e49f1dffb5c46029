/** The event store at the level of its protocol: which immutable segments, ID
    claims and cached state exist, which single file operations change them, and
    what a writer that holds the lock still has to do. */
module LedgerProtocol {
  import opened Model
  import opened Jsonl
  import opened SegmentNames

  /** What the store needs to know about file contents: the events a JSONL file
      holds, the bytes a batch is written as, and the two SHA-256 names. */
  datatype Files = Files(
    read: Bytes -> Option<seq<Event>>,
    encode: seq<Event> -> Option<Bytes>,
    digest: Bytes -> string,
    idKey: string -> string)
  {
    function Read(raw: Bytes): Option<seq<Event>> { read(raw) }
    function Encode(events: seq<Event>): Option<Bytes> { encode(events) }
    function Digest(raw: Bytes): string { digest(raw) }
    function IdKey(id: string): string { idKey(id) }
  }

  /** The laws the protocol relies on; `JsonlLaws` proves them of JSON Lines. */
  ghost predicate FilesOk(f: Files) {
    && (forall raw :: f.Read(raw).Some? ==> ReadOk(raw, f.Read(raw).value))
    && f.Read([]) == Some([])
    && (forall events :: f.Encode(events).Some? && events != [] ==>
         f.Encode(events).value != [] && f.Read(f.Encode(events).value) == Some(events))
    && (forall raw :: |f.Digest(raw)| == 64 && IsHex(f.Digest(raw)))
    && (forall id :: IsClaimName(f.IdKey(id)))
  }

  ghost predicate ReadOk(raw: Bytes, events: seq<Event>) {
    && |raw| <= MAX_LEDGER_BYTES && |events| <= |raw| && DistinctIds(events) && (raw != [] ==> events != [])
    && forall e <- events :: e.id != ""
  }

  /** The files of a JSON codec: its reader, and its batch encoder. */
  ghost function JsonlFiles(c: Codec): Files {
    Files(
      raw => ReadJsonl(c, raw),
      events => if Storable(c, events) then Some(EncodeAll(c, events)) else None,
      raw => c.Digest(raw),
      id => c.IdKey(id))
  }

  lemma JsonlLaws(c: Codec)
    requires c.Blank("") && forall e :: Faithful(c, e)
    requires forall raw :: |c.Digest(raw)| == 64 && IsHex(c.Digest(raw))
    requires forall id :: |c.IdKey(id)| == 69 && c.IdKey(id)[64..] == ".json" && IsHex(c.IdKey(id)[..64])
    ensures FilesOk(JsonlFiles(c))
  {
    var f := JsonlFiles(c);
    forall id ensures IsClaimName(f.IdKey(id)) {
      assert c.IdKey(id) == c.IdKey(id)[..64] + ".json";
      DigestNamesClaim(c.IdKey(id)[..64]);
    }
    forall raw | f.Read(raw).Some? ensures ReadOk(raw, f.Read(raw).value) {
      FewerLines(raw);
      ParseValid(c, Lines(raw), |Lines(raw)|);
    }
    forall events | f.Encode(events).Some? && events != []
      ensures f.Encode(events).value != [] && f.Read(f.Encode(events).value) == Some(events)
    {
      BatchRoundTrip(c, events);
      LinesOfBatch(c, events);
    }
  }

  datatype Claim = Claim(id: string, sequence: nat)

  datatype StoreState = StoreState(
    version: int, lastSequence: nat, totalBytes: int, eventCount: int,
    legacyDigest: string, legacyBytes: int)

  /** Segment `i` of the sequence carries sequence number `i + 1`. */
  datatype Store = Store(
    segments: seq<Bytes>,
    claims: map<string, Claim>,
    state: Option<StoreState>,
    legacy: Option<Bytes>)

  /** The file operations that change what readers or later writers see. */
  datatype Op =
    | LinkSegment(data: Bytes)
    | LinkClaim(id: string, sequence: nat)
    | SaveState(state: StoreState)

  // ---------- What a store means ----------

  function EventsOf(f: Files, raw: Bytes): seq<Event> {
    var parsed := f.Read(raw);
    if parsed.Some? then parsed.value else []
  }

  /** The events of the first `n` segments, in order. */
  function Upto(f: Files, segments: seq<Bytes>, n: nat): seq<Event>
    requires n <= |segments|
  {
    if n == 0 then [] else Upto(f, segments, n - 1) + EventsOf(f, segments[n - 1])
  }

  function BytesUpto(segments: seq<Bytes>, n: nat): nat
    requires n <= |segments|
  {
    if n == 0 then 0 else BytesUpto(segments, n - 1) + |segments[n - 1]|
  }

  /** The visible log: the segments, or the pre-v1 file while there are none. */
  function Log(f: Files, s: Store): seq<Event> {
    if s.segments != [] then Upto(f, s.segments, |s.segments|)
    else if s.legacy.Some? then EventsOf(f, s.legacy.value)
    else []
  }

  function LegacyDigest(f: Files, s: Store): string {
    if s.legacy.Some? then f.Digest(s.legacy.value) else ""
  }

  function LegacyBytes(s: Store): nat {
    if s.legacy.Some? then |s.legacy.value| else 0
  }

  /** The totals a writer caches once the first `n` segments are indexed. */
  function Totals(f: Files, s: Store, n: nat): StoreState
    requires n <= |s.segments|
  {
    StoreState(1, n, BytesUpto(s.segments, n), |Upto(f, s.segments, n)|, LegacyDigest(f, s), LegacyBytes(s))
  }

  // ---------- Single file operations ----------

  predicate Claimed(f: Files, s: Store, id: string, q: nat) {
    f.IdKey(id) in s.claims && s.claims[f.IdKey(id)] == Claim(id, q)
  }

  /** A hard link fails when its target exists. */
  predicate Enabled(f: Files, s: Store, op: Op) {
    op.LinkClaim? ==> f.IdKey(op.id) !in s.claims
  }

  function Apply(f: Files, s: Store, op: Op): Store {
    match op
    case LinkSegment(data) => s.(segments := s.segments + [data])
    case LinkClaim(id, q) => s.(claims := s.claims[f.IdKey(id) := Claim(id, q)])
    case SaveState(state) => s.(state := Some(state))
  }

  // ---------- The invariant of every reachable store ----------

  ghost predicate SegmentsOk(f: Files, segments: seq<Bytes>) {
    && (forall i :: 0 <= i < |segments| ==> segments[i] != [] && f.Read(segments[i]).Some?)
    && BytesUpto(segments, |segments|) <= MAX_LEDGER_BYTES
    && DistinctIds(Upto(f, segments, |segments|))
  }

  /** Every claim names a committed event and the segment that holds it. */
  ghost predicate ClaimsCorrect(f: Files, s: Store) {
    forall k <- s.claims ::
      && k == f.IdKey(s.claims[k].id)
      && 1 <= s.claims[k].sequence <= |s.segments|
      && s.claims[k].id in Ids(EventsOf(f, s.segments[s.claims[k].sequence - 1]))
  }

  ghost predicate SegmentClaimed(f: Files, s: Store, i: nat)
    requires i < |s.segments|
  {
    forall e <- EventsOf(f, s.segments[i]) :: Claimed(f, s, e.id, i + 1)
  }

  ghost predicate ClaimedUpto(f: Files, s: Store, n: nat)
    requires n <= |s.segments|
  {
    forall i :: 0 <= i < n ==> SegmentClaimed(f, s, i)
  }

  /** The saved sequence is the last one or the one before it. */
  ghost predicate StateOk(f: Files, s: Store) {
    match s.state
    case None => |s.segments| <= 1 && (|s.segments| == 1 ==> s.legacy == Some(s.segments[0]))
    case Some(st) =>
      && st.lastSequence <= |s.segments| <= st.lastSequence + 1
      && st == Totals(f, s, st.lastSequence)
      && ClaimedUpto(f, s, st.lastSequence)
  }

  ghost predicate LegacyOk(f: Files, segments: seq<Bytes>, legacy: Option<Bytes>) {
    legacy.Some? ==>
      && f.Read(legacy.value).Some?
      && (legacy.value != [] && segments != [] ==> segments[0] == legacy.value)
  }

  ghost predicate Inv(f: Files, s: Store) {
    SegmentsOk(f, s.segments) && ClaimsCorrect(f, s) && StateOk(f, s) && LegacyOk(f, s.segments, s.legacy)
  }

  // ---------- What a writer does with the lock ----------

  predicate NeedsImport(s: Store) {
    s.segments == [] && s.legacy.Some? && s.legacy.value != []
  }

  predicate NeedsClaims(s: Store) {
    s.segments != [] && (s.state.None? || s.state.value.lastSequence < |s.segments|)
  }

  /** The claims still missing for `events[j..]` of segment `q`. */
  function MissingClaims(f: Files, s: Store, events: seq<Event>, q: nat, j: nat): seq<Op>
    requires j <= |events|
    decreases |events| - j
  {
    if j == |events| then []
    else
      (if Claimed(f, s, events[j].id, q) then [] else [LinkClaim(events[j].id, q)])
      + MissingClaims(f, s, events, q, j + 1)
  }

  function LastEvents(f: Files, segments: seq<Bytes>): seq<Event>
    requires segments != []
  {
    EventsOf(f, segments[|segments| - 1])
  }

  function ClaimPlan(f: Files, s: Store): seq<Op> {
    if NeedsClaims(s) then MissingClaims(f, s, LastEvents(f, s.segments), |s.segments|, 0) else []
  }

  function SavePlan(f: Files, s: Store): seq<Op> {
    var totals := Totals(f, s, |s.segments|);
    if s.state == Some(totals) then [] else [SaveState(totals)]
  }

  /** The operations recovery performs, in order. */
  function ReconcilePlan(f: Files, s: Store): seq<Op> {
    if NeedsImport(s) then
      var s' := Apply(f, s, LinkSegment(s.legacy.value));
      [LinkSegment(s.legacy.value)] + ClaimPlan(f, s') + SavePlan(f, s')
    else
      ClaimPlan(f, s) + SavePlan(f, s)
  }

  /** The checks between recovery and the commit of a batch. */
  predicate Accepts(f: Files, s: Store, events: seq<Event>, data: Bytes) {
    && BytesUpto(s.segments, |s.segments|) + |data| <= MAX_LEDGER_BYTES
    && forall e <- events :: f.IdKey(e.id) !in s.claims
  }

  /** After the commit: one claim per event, then the new totals. */
  function IndexPlan(f: Files, s: Store, events: seq<Event>): seq<Op> {
    ClaimAll(events, |s.segments|) + [SaveState(Totals(f, s, |s.segments|))]
  }

  function ClaimAll(events: seq<Event>, q: nat): seq<Op> {
    seq(|events|, i requires 0 <= i < |events| => LinkClaim(events[i].id, q))
  }

  function Encoded(f: Files, batch: seq<Event>): Bytes {
    var data := f.Encode(batch);
    if data.Some? then data.value else []
  }

  /** The bytes of the visible log. */
  function LogBytes(s: Store): nat {
    if s.segments == [] then LegacyBytes(s) else BytesUpto(s.segments, |s.segments|)
  }

  ghost predicate Fits(f: Files, disk: Store, batch: seq<Event>) {
    && Ids(batch) !! Ids(Log(f, disk))
    && LogBytes(disk) + |Encoded(f, batch)| <= MAX_LEDGER_BYTES
  }

  // ---------- Lemmas ----------

  lemma {:induction false} UptoSame(f: Files, a: seq<Bytes>, b: seq<Bytes>, n: nat)
    requires n <= |a| && n <= |b| && a[..n] == b[..n]
    ensures Upto(f, a, n) == Upto(f, b, n)
    ensures BytesUpto(a, n) == BytesUpto(b, n)
  {
    if n > 0 {
      assert a[..n - 1] == a[..n][..n - 1] == b[..n - 1];
      assert a[n - 1] == a[..n][n - 1] == b[n - 1];
      UptoSame(f, a, b, n - 1);
    }
  }

  lemma {:induction false} InUpto(f: Files, segments: seq<Bytes>, n: nat, x: string)
    requires n <= |segments|
    ensures x in Ids(Upto(f, segments, n)) <==> exists i :: 0 <= i < n && x in Ids(EventsOf(f, segments[i]))
  {
    hide DistinctIds;
    if n > 0 {
      InUpto(f, segments, n - 1, x);
      IdsOfConcat(Upto(f, segments, n - 1), EventsOf(f, segments[n - 1]));
    }
  }

  lemma DistinctConcat(a: seq<Event>, b: seq<Event>)
    ensures DistinctIds(a + b) <==> DistinctIds(a) && DistinctIds(b) && Ids(a) !! Ids(b)
  {
    IdsOfConcat(a, b);
    AtMostOneIdEach(a);
    AtMostOneIdEach(b);
    UnionSize(Ids(a), Ids(b));
  }

  lemma UnionSize(a: set<string>, b: set<string>)
    ensures |a + b| == |a| + |b| <==> a !! b
    ensures |a + b| <= |a| + |b|
  {
    assert |a + b| == |a| + |b| - |a * b|;
    if |a * b| == 0 {
      assert a * b == {};
      assert forall x <- a :: x in b ==> x in a * b;
    }
  }

  /** In a quiet store every committed event has its claim, and the cached
      totals are exact. */
  lemma Quiescent(f: Files, s: Store)
    requires Inv(f, s) && ReconcilePlan(f, s) == []
    ensures !NeedsImport(s) && !NeedsClaims(s)
    ensures s.state == Some(Totals(f, s, |s.segments|))
    ensures ClaimedUpto(f, s, |s.segments|)
    ensures forall x <- Ids(Upto(f, s.segments, |s.segments|)) :: f.IdKey(x) in s.claims
  {
    assert SavePlan(f, s) == [];
    forall x <- Ids(Upto(f, s.segments, |s.segments|)) ensures f.IdKey(x) in s.claims {
      InUpto(f, s.segments, |s.segments|, x);
      var i :| 0 <= i < |s.segments| && x in Ids(EventsOf(f, s.segments[i]));
      assert SegmentClaimed(f, s, i);
    }
  }

  /** Linking one more segment whose IDs are new keeps everything. */
  lemma SegmentAdded(f: Files, s: Store, data: Bytes)
    requires Inv(f, s) && data != [] && f.Read(data).Some? && DistinctIds(f.Read(data).value)
    requires s.state.None? ==> s.segments == [] && s.legacy == Some(data)
    requires s.state.Some? ==> s.state.value.lastSequence == |s.segments|
    requires BytesUpto(s.segments, |s.segments|) + |data| <= MAX_LEDGER_BYTES
    requires Ids(Upto(f, s.segments, |s.segments|)) !! Ids(EventsOf(f, data))
    requires NeedsImport(s) ==> data == s.legacy.value
    ensures Inv(f, Apply(f, s, LinkSegment(data)))
    ensures Upto(f, s.segments + [data], |s.segments| + 1) == Upto(f, s.segments, |s.segments|) + EventsOf(f, data)
  {
    hide DistinctIds, Ids;
    var n := |s.segments|;
    var s' := Apply(f, s, LinkSegment(data));
    UptoSame(f, s.segments, s'.segments, n);
    DistinctConcat(Upto(f, s.segments, n), EventsOf(f, data));
    forall k <- s'.claims ensures 1 <= s'.claims[k].sequence <= |s'.segments| {
      assert k in s.claims;
    }
    if s.state.Some? {
      forall i | 0 <= i < n ensures SegmentClaimed(f, s', i) {
        assert SegmentClaimed(f, s, i);
      }
    }
  }

  lemma ImportStep(f: Files, s: Store)
    requires FilesOk(f) && Inv(f, s) && NeedsImport(s)
    ensures var s' := Apply(f, s, LinkSegment(s.legacy.value));
            Inv(f, s') && Log(f, s') == Log(f, s) && !NeedsImport(s')
            && ReconcilePlan(f, s) == [LinkSegment(s.legacy.value)] + ReconcilePlan(f, s')
  {
    hide DistinctIds;
    assert Ids([]) == {};
    SegmentAdded(f, s, s.legacy.value);
    assert Upto(f, s.segments, 0) == [];
    var s' := Apply(f, s, LinkSegment(s.legacy.value));
    assert [LinkSegment(s.legacy.value)] + ClaimPlan(f, s') + SavePlan(f, s')
        == [LinkSegment(s.legacy.value)] + (ClaimPlan(f, s') + SavePlan(f, s'));
  }

  /** A new claim changes the status of no other event. */
  lemma ClaimedAfter(f: Files, s: Store, id: string, q: nat, x: string, p: nat)
    requires f.IdKey(id) !in s.claims
    ensures Claimed(f, Apply(f, s, LinkClaim(id, q)), x, p) <==> Claimed(f, s, x, p) || (x == id && p == q)
  {
  }

  /** Linking the first missing claim leaves exactly the others missing. */
  lemma {:induction false} MissingClaimsTail(f: Files, s: Store, events: seq<Event>, q: nat, j: nat, id: string)
    requires j <= |events| && f.IdKey(id) !in s.claims
    requires forall i :: j <= i < |events| ==> events[i].id != id
    ensures MissingClaims(f, Apply(f, s, LinkClaim(id, q)), events, q, j) == MissingClaims(f, s, events, q, j)
    decreases |events| - j
  {
    if j < |events| {
      ClaimedAfter(f, s, id, q, events[j].id, q);
      MissingClaimsTail(f, s, events, q, j + 1, id);
    }
  }

  lemma {:induction false} MissingClaimsHead(f: Files, s: Store, events: seq<Event>, q: nat, j: nat)
    requires j <= |events| && DistinctIds(events)
    requires MissingClaims(f, s, events, q, j) != []
    requires Enabled(f, s, MissingClaims(f, s, events, q, j)[0])
    ensures var missing := MissingClaims(f, s, events, q, j);
            && missing[0].LinkClaim? && missing[0].sequence == q && missing[0].id in Ids(events)
            && MissingClaims(f, Apply(f, s, missing[0]), events, q, j) == missing[1..]
    decreases |events| - j
  {
    hide DistinctIds;
    if Claimed(f, s, events[j].id, q) {
      MissingClaimsHead(f, s, events, q, j + 1);
      var op := MissingClaims(f, s, events, q, j)[0];
      ClaimedAfter(f, s, op.id, q, events[j].id, q);
    } else {
      DistinctByIndex(events);
      assert events[j] in events;
      MissingClaimsTail(f, s, events, q, j + 1, events[j].id);
    }
  }

  lemma {:induction false} DistinctByIndex(events: seq<Event>)
    requires DistinctIds(events)
    ensures forall i, j :: 0 <= i < j < |events| ==> events[i].id != events[j].id
  {
    hide DistinctIds;
    if events != [] {
      var n := |events| - 1;
      assert events == events[..n] + [events[n]];
      DistinctAppend(events[..n], events[n]);
      DistinctByIndex(events[..n]);
      assert forall i :: 0 <= i < n ==> events[..n][i] == events[i] && events[i] in events[..n];
    }
  }

  /** No claim is missing exactly when each event has its own. */
  lemma {:induction false} NoneMissing(f: Files, s: Store, events: seq<Event>, q: nat, j: nat)
    requires j <= |events|
    ensures MissingClaims(f, s, events, q, j) == []
            <==> forall i :: j <= i < |events| ==> Claimed(f, s, events[i].id, q)
    decreases |events| - j
  {
    if j < |events| { NoneMissing(f, s, events, q, j + 1); }
  }

  lemma ClaimKeepsClaims(f: Files, s: Store, id: string, q: nat)
    requires ClaimsCorrect(f, s) && 1 <= q <= |s.segments| && id in Ids(EventsOf(f, s.segments[q - 1]))
    ensures ClaimsCorrect(f, Apply(f, s, LinkClaim(id, q)))
  {
    hide DistinctIds, Ids;
  }

  lemma ClaimKeepsSegment(f: Files, s: Store, id: string, q: nat, i: nat)
    requires f.IdKey(id) !in s.claims && i < |s.segments| && SegmentClaimed(f, s, i)
    ensures SegmentClaimed(f, Apply(f, s, LinkClaim(id, q)), i)
  {
    var s' := Apply(f, s, LinkClaim(id, q));
    forall e <- EventsOf(f, s.segments[i]) ensures Claimed(f, s', e.id, i + 1) {
      ClaimedAfter(f, s, id, q, e.id, i + 1);
    }
  }

  lemma ClaimKeepsState(f: Files, s: Store, id: string, q: nat)
    requires StateOk(f, s) && f.IdKey(id) !in s.claims
    ensures StateOk(f, Apply(f, s, LinkClaim(id, q)))
  {
    if s.state.Some? {
      forall i | 0 <= i < s.state.value.lastSequence ensures SegmentClaimed(f, Apply(f, s, LinkClaim(id, q)), i) {
        ClaimKeepsSegment(f, s, id, q, i);
      }
    }
  }

  lemma ClaimPlanTail(f: Files, s: Store)
    requires NeedsClaims(s) && DistinctIds(LastEvents(f, s.segments)) && ClaimPlan(f, s) != []
    requires Enabled(f, s, ClaimPlan(f, s)[0])
    ensures var op := ClaimPlan(f, s)[0];
            && op.LinkClaim? && op.sequence == |s.segments| && op.id in Ids(LastEvents(f, s.segments))
            && ClaimPlan(f, Apply(f, s, op)) == ClaimPlan(f, s)[1..]
            && SavePlan(f, Apply(f, s, op)) == SavePlan(f, s)
  {
    MissingClaimsHead(f, s, LastEvents(f, s.segments), |s.segments|, 0);
  }

  lemma ClaimStep(f: Files, s: Store)
    requires ClaimsCorrect(f, s) && StateOk(f, s)
    requires NeedsClaims(s) && DistinctIds(LastEvents(f, s.segments)) && ClaimPlan(f, s) != []
    requires Enabled(f, s, ClaimPlan(f, s)[0])
    ensures var s' := Apply(f, s, ClaimPlan(f, s)[0]);
            && s'.segments == s.segments && s'.legacy == s.legacy
            && ClaimsCorrect(f, s') && StateOk(f, s')
            && ClaimPlan(f, s') == ClaimPlan(f, s)[1..] && SavePlan(f, s') == SavePlan(f, s)
  {
    hide DistinctIds, Ids;
    ClaimPlanTail(f, s);
    var op := ClaimPlan(f, s)[0];
    ClaimKeepsClaims(f, s, op.id, op.sequence);
    ClaimKeepsState(f, s, op.id, op.sequence);
  }

  lemma AllClaimed(f: Files, s: Store)
    requires StateOk(f, s) && ClaimPlan(f, s) == []
    ensures ClaimedUpto(f, s, |s.segments|)
  {
    var n := |s.segments|;
    if NeedsClaims(s) {
      NoneMissing(f, s, LastEvents(f, s.segments), n, 0);
      assert SegmentClaimed(f, s, n - 1);
    }
  }

  lemma SaveStep(f: Files, s: Store)
    requires StateOk(f, s) && ClaimPlan(f, s) == []
    ensures var s' := Apply(f, s, SaveState(Totals(f, s, |s.segments|)));
            StateOk(f, s') && ClaimPlan(f, s') == [] && SavePlan(f, s') == []
  {
    var n := |s.segments|;
    AllClaimed(f, s);
    var s' := Apply(f, s, SaveState(Totals(f, s, n)));
    forall i | 0 <= i < n ensures SegmentClaimed(f, s', i) {
      assert SegmentClaimed(f, s, i);
      assert forall e <- EventsOf(f, s.segments[i]) :: Claimed(f, s, e.id, i + 1) ==> Claimed(f, s', e.id, i + 1);
    }
  }

  /** Recovery is self-similar: after its first operation, what remains is
      exactly what a fresh recovery of the new store would do, and neither the
      invariant nor the visible log is lost on the way. */
  lemma ReconcileStep(f: Files, s: Store)
    requires FilesOk(f) && Inv(f, s) && ReconcilePlan(f, s) != [] && Enabled(f, s, ReconcilePlan(f, s)[0])
    ensures var s' := Apply(f, s, ReconcilePlan(f, s)[0]);
            Inv(f, s') && Log(f, s') == Log(f, s) && ReconcilePlan(f, s') == ReconcilePlan(f, s)[1..]
  {
    hide DistinctIds, Ids;
    if NeedsImport(s) {
      ImportStep(f, s);
    } else {
      IndexStep(f, s);
    }
  }

  lemma IndexStep(f: Files, s: Store)
    requires Inv(f, s) && !NeedsImport(s) && ReconcilePlan(f, s) != [] && Enabled(f, s, ReconcilePlan(f, s)[0])
    ensures var s' := Apply(f, s, ReconcilePlan(f, s)[0]);
            && s'.segments == s.segments && s'.legacy == s.legacy && Inv(f, s')
            && ReconcilePlan(f, s') == ReconcilePlan(f, s)[1..]
  {
    hide DistinctIds, Ids, Upto, BytesUpto, MissingClaims, EventsOf, SegmentsOk, StateOk, LegacyOk, LastEvents;
    if ClaimPlan(f, s) != [] {
      LastDistinct(f, s.segments);
      ClaimStep(f, s);
      assert (ClaimPlan(f, s) + SavePlan(f, s))[1..] == ClaimPlan(f, s)[1..] + SavePlan(f, s);
    } else {
      assert ReconcilePlan(f, s) == SavePlan(f, s);
      SaveStep(f, s);
    }
  }

  lemma LastDistinct(f: Files, segments: seq<Bytes>)
    requires SegmentsOk(f, segments) && segments != []
    ensures DistinctIds(LastEvents(f, segments))
  {
    var n := |segments|;
    DistinctConcat(Upto(f, segments, n - 1), EventsOf(f, segments[n - 1]));
  }

  /** No two of these IDs share a claim file name. */
  ghost predicate KeysInjective(f: Files, ids: set<string>) {
    forall x, y :: x in ids && y in ids && f.IdKey(x) == f.IdKey(y) ==> x == y
  }

  /** Recovery never wedges: with injective claim names its next operation can
      always be performed. */
  lemma ReconcileEnabled(f: Files, s: Store)
    requires Inv(f, s) && ReconcilePlan(f, s) != [] && KeysInjective(f, Ids(Log(f, s)))
    ensures Enabled(f, s, ReconcilePlan(f, s)[0])
  {
    if !NeedsImport(s) && ClaimPlan(f, s) != [] {
      MissingIsUnclaimed(f, s, LastEvents(f, s.segments), |s.segments|, 0);
      KeyIsFree(f, s, ClaimPlan(f, s)[0].id);
    }
  }

  lemma KeyIsFree(f: Files, s: Store, id: string)
    requires Inv(f, s) && s.segments != [] && KeysInjective(f, Ids(Log(f, s)))
    requires id in Ids(LastEvents(f, s.segments)) && !Claimed(f, s, id, |s.segments|)
    ensures f.IdKey(id) !in s.claims
  {
    hide DistinctIds, Ids;
    var n := |s.segments|;
    InUpto(f, s.segments, n, id);
    if f.IdKey(id) in s.claims {
      var claim := s.claims[f.IdKey(id)];
      InUpto(f, s.segments, n, claim.id);
      OneSegmentPerId(f, s, id, claim.sequence - 1, n - 1);
    }
  }

  lemma {:induction false} MissingIsUnclaimed(f: Files, s: Store, events: seq<Event>, q: nat, j: nat)
    requires j <= |events| && MissingClaims(f, s, events, q, j) != []
    ensures var op := MissingClaims(f, s, events, q, j)[0];
            op.LinkClaim? && op.id in Ids(events) && !Claimed(f, s, op.id, q)
    decreases |events| - j
  {
    if Claimed(f, s, events[j].id, q) {
      MissingIsUnclaimed(f, s, events, q, j + 1);
    } else {
      assert events[j] in events;
    }
  }

  /** An ID occurs in one segment only. */
  lemma OneSegmentPerId(f: Files, s: Store, x: string, i: nat, j: nat)
    requires SegmentsOk(f, s.segments) && i <= j < |s.segments|
    requires x in Ids(EventsOf(f, s.segments[i])) && x in Ids(EventsOf(f, s.segments[j]))
    ensures i == j
  {
    hide DistinctIds, Ids;
    PrefixDistinct(f, s.segments, j + 1, |s.segments|);
    DistinctConcat(Upto(f, s.segments, j), EventsOf(f, s.segments[j]));
    InUpto(f, s.segments, j, x);
  }

  lemma {:induction false} PrefixDistinct(f: Files, segments: seq<Bytes>, n: nat, m: nat)
    requires n <= m <= |segments| && DistinctIds(Upto(f, segments, m))
    ensures DistinctIds(Upto(f, segments, n))
  {
    hide DistinctIds, Ids;
    if n < m {
      DistinctConcat(Upto(f, segments, m - 1), EventsOf(f, segments[m - 1]));
      PrefixDistinct(f, segments, n, m - 1);
    }
  }

  /** Committing an accepted batch to a quiet store appends exactly that batch. */
  lemma CommitStep(f: Files, s: Store, events: seq<Event>, data: Bytes)
    requires Inv(f, s) && ReconcilePlan(f, s) == []
    requires FilesOk(f) && data != [] && f.Read(data) == Some(events)
    requires Accepts(f, s, events, data)
    ensures var s' := Apply(f, s, LinkSegment(data));
            Inv(f, s') && Log(f, s') == Log(f, s) + events
  {
    hide DistinctIds;
    Quiescent(f, s);
    forall x <- Ids(events) ensures x !in Ids(Upto(f, s.segments, |s.segments|)) {
      var e :| e in events && e.id == x;
      assert f.IdKey(x) !in s.claims;
    }
    SegmentAdded(f, s, data);
    if s.segments == [] {
      assert Log(f, s) == [] by {
        if s.legacy.Some? { assert s.legacy.value == []; }
      }
    }
  }

  /** A freshly committed batch is indexed by the very operations recovery would
      perform for it. */
  lemma IndexIsRecovery(f: Files, s: Store, events: seq<Event>, data: Bytes)
    requires FilesOk(f) && Inv(f, s) && ReconcilePlan(f, s) == []
    requires data != [] && f.Read(data) == Some(events)
    requires Accepts(f, s, events, data)
    ensures var s' := Apply(f, s, LinkSegment(data));
            ReconcilePlan(f, s') == IndexPlan(f, s', events)
  {
    Quiescent(f, s);
    var s' := Apply(f, s, LinkSegment(data));
    AllMissing(f, s', events, |s'.segments|, 0);
    assert ClaimAll(events, |s'.segments|)[0..] == ClaimAll(events, |s'.segments|);
    assert SavePlan(f, s') == [SaveState(Totals(f, s', |s'.segments|))];
  }

  lemma {:induction false} AllMissing(f: Files, s: Store, events: seq<Event>, q: nat, j: nat)
    requires j <= |events|
    requires forall e <- events :: f.IdKey(e.id) !in s.claims
    ensures MissingClaims(f, s, events, q, j) == ClaimAll(events, q)[j..]
    decreases |events| - j
  {
    if j < |events| {
      assert events[j] in events;
      AllMissing(f, s, events, q, j + 1);
      assert ClaimAll(events, q)[j..] == [ClaimAll(events, q)[j]] + ClaimAll(events, q)[j + 1..];
    }
  }

  lemma LogBytesKept(f: Files, s: Store)
    requires Inv(f, s) && ReconcilePlan(f, s) != [] && Enabled(f, s, ReconcilePlan(f, s)[0])
    ensures LogBytes(Apply(f, s, ReconcilePlan(f, s)[0])) == LogBytes(s)
  {
    if NeedsImport(s) {
      assert s.segments + [s.legacy.value] == [s.legacy.value];
      assert BytesUpto([s.legacy.value], 0) == 0;
    } else if ClaimPlan(f, s) != [] {
      LastDistinct(f, s.segments);
      ClaimPlanTail(f, s);
    }
  }

  lemma EmptyLog(f: Files, s: Store)
    requires FilesOk(f) && !NeedsImport(s)
    ensures Log(f, s) == Upto(f, s.segments, |s.segments|)
  {
  }

  lemma QuietBytes(f: Files, s: Store)
    requires Inv(f, s) && ReconcilePlan(f, s) == []
    ensures LogBytes(s) == BytesUpto(s.segments, |s.segments|)
  {
    Quiescent(f, s);
  }

  lemma FewerKeys(f: Files, a: set<string>, b: set<string>)
    requires KeysInjective(f, a + b)
    ensures KeysInjective(f, a)
  {
  }

  /** Once recovery is done, an accepted batch fits the ledger and all its IDs
      are new. */
  lemma AcceptedFits(f: Files, s: Store, events: seq<Event>, data: Bytes)
    requires FilesOk(f) && Inv(f, s) && ReconcilePlan(f, s) == [] && Accepts(f, s, events, data)
    ensures BytesUpto(s.segments, |s.segments|) + |data| <= MAX_LEDGER_BYTES && Ids(events) !! Ids(Log(f, s))
  {
    Quiescent(f, s);
    EmptyLog(f, s);
    hide DistinctIds, Upto;
    forall x <- Ids(events) ensures x !in Ids(Log(f, s)) {
      var e :| e in events && e.id == x;
    }
  }

  /** Once recovery is done, a batch is accepted exactly when it fits and all
      its IDs are new. */
  lemma AcceptsExactly(f: Files, s: Store, events: seq<Event>, data: Bytes)
    requires FilesOk(f) && Inv(f, s) && ReconcilePlan(f, s) == []
    requires KeysInjective(f, Ids(Log(f, s)) + Ids(events))
    ensures Accepts(f, s, events, data) <==>
            BytesUpto(s.segments, |s.segments|) + |data| <= MAX_LEDGER_BYTES && Ids(events) !! Ids(Log(f, s))
  {
    if Accepts(f, s, events, data) {
      AcceptedFits(f, s, events, data);
    } else {
      Quiescent(f, s);
      EmptyLog(f, s);
      hide DistinctIds, Upto;
      forall e <- events ensures f.IdKey(e.id) in s.claims ==> e.id in Ids(events) && e.id in Ids(Log(f, s)) {
        if f.IdKey(e.id) in s.claims {
          var claim := s.claims[f.IdKey(e.id)];
          InUpto(f, s.segments, |s.segments|, claim.id);
          assert claim.id in Ids(Log(f, s)) && e.id in Ids(events);
          assert claim.id == e.id;
        }
      }
    }
  }
}
