/** What recovery has to establish, step by step: listings, intact segments,
    claims, and the progress of a writer through its plan. */
module Recovery {
  import opened Model
  import opened Jsonl
  import opened SegmentNames
  import opened LedgerProtocol
  import opened Directories

  datatype StoreError =
    | BadBatch | UnsafeTemp | BadState | BadDirectory | BadLegacy | LegacyChanged | SegmentGap
    | LedgerFull | DamagedSegment | DuplicateId | IndexMismatch | FileOperation

  // ---------- Listing a directory ----------

  function InsertListed(list: seq<Listed>, l: Listed): seq<Listed> {
    if list == [] || l.x.sequence < list[0].x.sequence then [l] + list
    else [list[0]] + InsertListed(list[1..], l)
  }

  lemma {:induction false} InsertedElements(list: seq<Listed>, l: Listed)
    ensures |InsertListed(list, l)| == |list| + 1
    ensures forall k :: k in InsertListed(list, l) <==> k in list || k == l
  {
    if list == [] || l.x.sequence < list[0].x.sequence {
    } else {
      InsertedElements(list[1..], l);
      assert list == [list[0]] + list[1..];
    }
  }

  lemma Cons(h: Listed, t: seq<Listed>)
    requires Sorted(t) && DistinctNames(t)
    requires forall k <- t :: h.x.sequence <= k.x.sequence && h.name != k.name
    ensures Sorted([h] + t) && DistinctNames([h] + t)
  {
    assert forall i :: 0 <= i < |t| ==> t[i] in t;
  }

  lemma Uncons(list: seq<Listed>)
    requires Sorted(list) && DistinctNames(list) && list != []
    ensures Sorted(list[1..]) && DistinctNames(list[1..])
    ensures forall k <- list[1..] :: list[0].x.sequence <= k.x.sequence && list[0].name != k.name
    ensures forall k <- list[1..] :: k in list
  {
  }

  lemma {:induction false} InsertedSorted(list: seq<Listed>, l: Listed)
    requires Sorted(list) && DistinctNames(list) && forall k <- list :: k.name != l.name
    ensures Sorted(InsertListed(list, l)) && DistinctNames(InsertListed(list, l))
  {
    if list == [] {
    } else {
      Uncons(list);
      assert list[0] in list;
      assert list == [list[0]] + list[1..];
      hide Sorted, DistinctNames;
      if l.x.sequence < list[0].x.sequence {
        Cons(l, list);
      } else {
        InsertedSorted(list[1..], l);
        InsertedElements(list[1..], l);
        Cons(list[0], InsertListed(list[1..], l));
      }
    }
  }

  lemma NamesOf(a: seq<Listed>, b: seq<Listed>, l: Listed)
    requires forall k :: k in b <==> k in a || k == l
    ensures Names(b) == Names(a) + {l.name}
  {
    forall x | x in Names(a) ensures x in Names(b) {
      var k :| k in a && k.name == x;
      assert k in b;
    }
    assert l in b;
  }

  function DataOf(dir: map<string, Entry>, name: string): Bytes {
    if name in dir && dir[name].File? then dir[name].data else []
  }

  lemma ListedNonEmpty(dir: map<string, Entry>, l: Listed)
    requires ListedFrom(dir, l)
    ensures DataOf(dir, l.name) == dir[l.name].data && |dir[l.name].data| == l.x.size > 0
  {
  }

  // ---------- How far a writer has come ----------

  /** From store `s0` with operations `t0` performed to `s1` with `t1`: recovery
      went on exactly as planned, and the visible log did not change. */
  ghost predicate Progress(f: Files, t0: seq<Op>, s0: Store, t1: seq<Op>, s1: Store) {
    && Inv(f, s1) && Log(f, s1) == Log(f, s0) && LogBytes(s1) == LogBytes(s0) && s1.legacy == s0.legacy
    && t0 <= t1 && t0 + ReconcilePlan(f, s0) == t1 + ReconcilePlan(f, s1)
  }

  lemma ProgressStep(f: Files, t0: seq<Op>, s0: Store, t: seq<Op>, s: Store)
    requires FilesOk(f) && Progress(f, t0, s0, t, s)
    requires ReconcilePlan(f, s) != [] && Enabled(f, s, ReconcilePlan(f, s)[0])
    ensures Progress(f, t0, s0, t + [ReconcilePlan(f, s)[0]], Apply(f, s, ReconcilePlan(f, s)[0]))
  {
    hide Inv, ReconcilePlan, Log, LogBytes;
    ReconcileStep(f, s);
    LogBytesKept(f, s);
    var plan := ReconcilePlan(f, s);
    assert plan == [plan[0]] + plan[1..];
    assert t + plan == (t + [plan[0]]) + plan[1..];
  }

  /** Which claims the directory holds for one segment's events. */
  ghost predicate EventsClaimed(f: Files, dir: map<string, ClaimEntry>, events: seq<Event>, q: nat) {
    forall e <- events :: f.IdKey(e.id) in dir && dir[f.IdKey(e.id)] == ClaimData(1, e.id, q)
  }

  lemma ClaimedIffShown(f: Files, dir: map<string, ClaimEntry>, s: Store, id: string, q: nat)
    requires FilesOk(f) && ClaimsShown(dir, s.claims)
    ensures Claimed(f, s, id, q) <==> f.IdKey(id) in dir && dir[f.IdKey(id)] == ClaimData(1, id, q)
    ensures f.IdKey(id) in dir <==> f.IdKey(id) in s.claims
  {
    ClaimNotTemp(f.IdKey(id));
  }

  // ---------- Indexing the committed events ----------

  ghost predicate SegmentTempsRegular(dir: map<string, Entry>) {
    forall name <- dir :: IsTemp(name) ==> dir[name].File?
  }

  ghost predicate ClaimTempsRegular(dir: map<string, ClaimEntry>) {
    forall name <- dir :: IsTemp(name) ==> !dir[name].Irregular?
  }

  /** The directories show a reachable store, and hold nothing else but
      temporary files left by earlier writers. */
  ghost predicate Healthy(f: Files, raw: Raw, s: Store) {
    Shows(f, raw, s) && Inv(f, s) && SegmentTempsRegular(raw.segments) && ClaimTempsRegular(raw.ids)
  }

  /** Committed claims are never overwritten or removed. */
  ghost predicate KeepsClaims(before: map<string, ClaimEntry>, after: map<string, ClaimEntry>) {
    forall k <- before :: !IsTemp(k) ==> k in after && after[k] == before[k]
  }

  /** No temporary file was left behind. */
  ghost predicate NoNewTemps<T>(before: map<string, T>, after: map<string, T>) {
    forall k <- after :: IsTemp(k) ==> k in before
  }

  lemma ClaimIsNoTemp(f: Files, dir: map<string, ClaimEntry>, id: string, entry: ClaimEntry)
    requires FilesOk(f)
    ensures NoNewTemps(dir, dir[f.IdKey(id) := entry]) && NoNewTemps(dir, dir)
  {
    hide IsTemp;
    ClaimNotTemp(f.IdKey(id));
  }

  lemma SegmentIsNoTemp(f: Files, dir: map<string, Entry>, sequence: nat, data: Bytes, count: nat)
    ensures NoNewTemps(dir, dir[NewName(f, sequence, data, count) := File(data)])
  {
    hide IsTemp;
    NameNotTemp(Fields(sequence, count, |data|, f.Digest(data)));
  }

  lemma StillClaimed(f: Files, before: map<string, ClaimEntry>, after: map<string, ClaimEntry>, events: seq<Event>,
      q: nat)
    requires FilesOk(f) && KeepsClaims(before, after) && EventsClaimed(f, before, events, q)
    ensures EventsClaimed(f, after, events, q)
  {
    forall e <- events ensures f.IdKey(e.id) in after && after[f.IdKey(e.id)] == ClaimData(1, e.id, q) {
      ClaimNotTemp(f.IdKey(e.id));
    }
  }

  lemma TempName()
    ensures IsTemp(SEGMENT_TEMP) && IsTemp(CLAIM_TEMP)
  {
    assert ".event-segment-" <= SEGMENT_TEMP && SEGMENT_TEMP[|SEGMENT_TEMP| - 4..] == ".tmp";
    assert ".event-id-" <= CLAIM_TEMP && CLAIM_TEMP[|CLAIM_TEMP| - 4..] == ".tmp";
  }

  /** The directory after `EnsureClaim`, whether or not it took effect. */
  lemma ClaimDirAfter(f: Files, dir: map<string, ClaimEntry>, dir': map<string, ClaimEntry>, s: Store, id: string,
      q: nat, applied: bool)
    requires FilesOk(f)
    requires var base := if applied then dir[f.IdKey(id) := ClaimData(1, id, q)] else dir;
             dir' == base || dir' == base[CLAIM_TEMP := Garbage]
    requires applied ==> f.IdKey(id) !in dir
    ensures KeepsClaims(dir, dir')
    ensures ClaimTempsRegular(dir) ==> ClaimTempsRegular(dir')
    ensures ClaimsShown(dir, s.claims) ==>
            ClaimsShown(dir', (if applied then Apply(f, s, LinkClaim(id, q)) else s).claims)
    ensures f.IdKey(id) in (if applied then dir[f.IdKey(id) := ClaimData(1, id, q)] else dir) ==>
            f.IdKey(id) in dir' && dir'[f.IdKey(id)] == (if applied then ClaimData(1, id, q) else dir[f.IdKey(id)])
  {
    hide IsTemp, IsClaimName;
    TempName();
    ClaimNotTemp(f.IdKey(id));
  }

  /** The first event without a claim is what recovery does next. */
  lemma {:induction false} NextMissing(f: Files, s: Store, events: seq<Event>, q: nat, i: nat, j: nat)
    requires i <= j < |events| && !Claimed(f, s, events[j].id, q)
    requires forall k :: i <= k < j ==> Claimed(f, s, events[k].id, q)
    ensures MissingClaims(f, s, events, q, i) != []
    ensures MissingClaims(f, s, events, q, i)[0] == LinkClaim(events[j].id, q)
    decreases j - i
  {
    if i < j { NextMissing(f, s, events, q, i + 1, j); }
  }

  /** `events` are those of segment `q`, and `link` tells whether their claims
      may still be missing. */
  ghost predicate AtSegment(f: Files, s: Store, events: seq<Event>, q: nat, link: bool) {
    && !NeedsImport(s) && 1 <= q <= |s.segments| && events == EventsOf(f, s.segments[q - 1])
    && link == (s.state.None? || s.state.value.lastSequence < q)
  }

  lemma NextClaim(f: Files, s: Store, events: seq<Event>, q: nat, j: nat)
    requires Inv(f, s) && AtSegment(f, s, events, q, true) && j < |events|
    requires forall k :: 0 <= k < j ==> Claimed(f, s, events[k].id, q)
    requires !Claimed(f, s, events[j].id, q)
    ensures ReconcilePlan(f, s) != [] && ReconcilePlan(f, s)[0] == LinkClaim(events[j].id, q)
    ensures FilesOk(f) && KeysInjective(f, Ids(Log(f, s))) ==> f.IdKey(events[j].id) !in s.claims
  {
    hide DistinctIds, SegmentsOk, ClaimsCorrect;
    NextMissing(f, s, events, q, 0, j);
    if KeysInjective(f, Ids(Log(f, s))) {
      assert events[j] in events;
      KeyIsFree(f, s, events[j].id);
    }
  }

  /** The writer is about to claim `events[j]` of the last segment. */
  ghost predicate Claiming(f: Files, raw: Raw, t0: seq<Op>, s0: Store, t: seq<Op>, s: Store, events: seq<Event>,
      q: nat, j: nat) {
    && j < |events| && Healthy(f, raw, s) && AtSegment(f, s, events, q, true) && Progress(f, t0, s0, t, s)
    && forall k :: 0 <= k < j ==> Claimed(f, s, events[k].id, q)
  }

  lemma ClaimAdvance(f: Files, raw: Raw, raw': Raw, t0: seq<Op>, s0: Store, t: seq<Op>, s: Store, events: seq<Event>,
      q: nat, j: nat)
    requires FilesOk(f) && Claiming(f, raw, t0, s0, t, s, events, q, j)
    requires f.IdKey(events[j].id) !in raw.ids
    requires var s' := Apply(f, s, LinkClaim(events[j].id, q));
             raw' == raw.(ids := raw'.ids) && ClaimsShown(raw'.ids, s'.claims) && ClaimTempsRegular(raw'.ids)
    ensures var s' := Apply(f, s, LinkClaim(events[j].id, q));
            && Healthy(f, raw', s') && Progress(f, t0, s0, t + [LinkClaim(events[j].id, q)], s')
            && s'.segments == s.segments && s'.state == s.state && AtSegment(f, s', events, q, true)
  {
    hide FilesOk, Inv, ReconcilePlan, Log, MissingClaims, SegmentsShown, ClaimsShown, Claimed, Progress;
    var id := events[j].id;
    ClaimedIffShown(f, raw.ids, s, id, q);
    NextClaim(f, s, events, q, j);
    ProgressStep(f, t0, s0, t, s);
    ProgressInv(f, t0, s0, t + [LinkClaim(id, q)], Apply(f, s, LinkClaim(id, q)));
  }

  lemma ProgressInv(f: Files, t0: seq<Op>, s0: Store, t: seq<Op>, s: Store)
    requires Progress(f, t0, s0, t, s)
    ensures Inv(f, s) && Log(f, s) == Log(f, s0) && s.legacy == s0.legacy
  {
  }

  /** The first `j` events are new and have their claims. */
  ghost predicate Scanned(f: Files, dir: map<string, ClaimEntry>, events: seq<Event>, q: nat, j: nat,
      before: set<string>, seen: set<string>)
  {
    && j <= |events| && EventsClaimed(f, dir, events[..j], q)
    && before !! Ids(events[..j]) && seen == before + Ids(events[..j])
  }

  lemma ScanStep(f: Files, dir: map<string, ClaimEntry>, dir': map<string, ClaimEntry>, events: seq<Event>, q: nat,
      j: nat, before: set<string>, seen: set<string>)
    requires FilesOk(f) && j < |events| && Scanned(f, dir, events, q, j, before, seen) && KeepsClaims(dir, dir')
    requires events[j].id !in seen
    requires f.IdKey(events[j].id) in dir' && dir'[f.IdKey(events[j].id)] == ClaimData(1, events[j].id, q)
    ensures Scanned(f, dir', events, q, j + 1, before, seen + {events[j].id})
  {
    hide FilesOk, DistinctIds, KeepsClaims, Ids;
    StillClaimed(f, dir, dir', events[..j], q);
    DistinctAppend(events[..j], events[j]);
    assert events[..j + 1] == events[..j] + [events[j]];
  }

  lemma ScanRepeats(f: Files, dir: map<string, ClaimEntry>, events: seq<Event>, q: nat, j: nat, before: set<string>,
      seen: set<string>)
    requires DistinctIds(events) && j < |events| && Scanned(f, dir, events, q, j, before, seen)
    requires events[j].id in seen
    ensures !(before !! Ids(events))
  {
    hide DistinctIds;
    DistinctPrefix(events, j + 1);
    assert events[..j + 1] == events[..j] + [events[j]];
    DistinctAppend(events[..j], events[j]);
    assert events[j] in events;
  }

  lemma ScannedClaimed(f: Files, dir: map<string, ClaimEntry>, s: Store, events: seq<Event>, q: nat, j: nat,
      before: set<string>, seen: set<string>)
    requires FilesOk(f) && Scanned(f, dir, events, q, j, before, seen) && ClaimsShown(dir, s.claims)
    ensures forall k :: 0 <= k < j ==> Claimed(f, s, events[k].id, q)
  {
    forall k | 0 <= k < j ensures Claimed(f, s, events[k].id, q) {
      assert events[..j][k] in events[..j];
      ClaimedIffShown(f, dir, s, events[k].id, q);
    }
  }

  ghost predicate Indexing(f: Files, raw: Raw, t0: seq<Op>, s0: Store, t: seq<Op>, s: Store, events: seq<Event>,
      q: nat, link: bool) {
    && Healthy(f, raw, s) && Progress(f, t0, s0, t, s)
    && s.segments == s0.segments && s.state == s0.state && AtSegment(f, s, events, q, link)
  }

  lemma OldClaimHeld(f: Files, raw: Raw, t0: seq<Op>, s0: Store, t: seq<Op>, s: Store, events: seq<Event>, q: nat,
      j: nat)
    requires FilesOk(f) && Indexing(f, raw, t0, s0, t, s, events, q, false) && j < |events|
    ensures f.IdKey(events[j].id) in raw.ids && raw.ids[f.IdKey(events[j].id)] == ClaimData(1, events[j].id, q)
  {
    hide Claimed, Inv, Log, ReconcilePlan;
    OldSegmentClaimed(f, s, events, q, j);
    ClaimedIffShown(f, raw.ids, s, events[j].id, q);
  }

  lemma ScanStart(f: Files, dir: map<string, ClaimEntry>, events: seq<Event>, q: nat, before: set<string>)
    ensures Scanned(f, dir, events, q, 0, before, before)
  {
    assert events[..0] == [] && Ids([]) == {};
  }

  lemma ScanDone(f: Files, dir: map<string, ClaimEntry>, events: seq<Event>, q: nat, before: set<string>,
      seen: set<string>)
    requires Scanned(f, dir, events, q, |events|, before, seen)
    ensures EventsClaimed(f, dir, events, q) && before !! Ids(events) && seen == before + Ids(events)
  {
    assert events[..|events|] == events;
  }

  lemma KeepsSelf(dir: map<string, ClaimEntry>)
    ensures KeepsClaims(dir, dir)
  {
  }

  lemma KeepsTrans(a: map<string, ClaimEntry>, b: map<string, ClaimEntry>, c: map<string, ClaimEntry>)
    requires KeepsClaims(a, b) && KeepsClaims(b, c)
    ensures KeepsClaims(a, c)
  {
  }

  lemma ProgressStart(f: Files, t: seq<Op>, s: Store, raw: Raw)
    requires Healthy(f, raw, s)
    ensures Progress(f, t, s, t, s)
  {
  }

  lemma StartClaiming(f: Files, raw: Raw, t0: seq<Op>, s0: Store, t: seq<Op>, s: Store, events: seq<Event>, q: nat,
      j: nat, before: set<string>, seen: set<string>)
    requires FilesOk(f) && Indexing(f, raw, t0, s0, t, s, events, q, true)
    requires j < |events| && Scanned(f, raw.ids, events, q, j, before, seen)
    ensures Claiming(f, raw, t0, s0, t, s, events, q, j)
  {
    hide Inv, Progress, Claimed;
    ScannedClaimed(f, raw.ids, s, events, q, j, before, seen);
  }

  lemma AllScanned(f: Files, raw: Raw, t0: seq<Op>, s0: Store, t: seq<Op>, s: Store, events: seq<Event>, q: nat,
      link: bool)
    requires FilesOk(f) && Indexing(f, raw, t0, s0, t, s, events, q, link) && EventsClaimed(f, raw.ids, events, q)
    ensures 1 <= q <= |s.segments| && SegmentClaimed(f, s, q - 1)
  {
    hide Inv, Progress, Claimed;
    forall e <- events ensures Claimed(f, s, e.id, q) {
      ClaimedIffShown(f, raw.ids, s, e.id, q);
    }
  }

  /** A claim can only be refused because of a hash collision. */
  lemma ClaimNotRefused(f: Files, raw: Raw, t0: seq<Op>, s0: Store, t: seq<Op>, s: Store, events: seq<Event>, q: nat,
      j: nat)
    requires FilesOk(f) && Claiming(f, raw, t0, s0, t, s, events, q, j) && KeysInjective(f, Ids(Log(f, s0)))
    requires var key := f.IdKey(events[j].id); key in raw.ids
    ensures raw.ids[f.IdKey(events[j].id)] == ClaimData(1, events[j].id, q)
  {
    hide FilesOk, Inv, ReconcilePlan, Log, MissingClaims, SegmentsShown, ClaimsShown, Claimed, Progress, KeysInjective;
    ProgressInv(f, t0, s0, t, s);
    ClaimedIffShown(f, raw.ids, s, events[j].id, q);
    if !Claimed(f, s, events[j].id, q) { NextClaim(f, s, events, q, j); }
  }

  lemma OldSegmentClaimed(f: Files, s: Store, events: seq<Event>, q: nat, j: nat)
    requires Inv(f, s) && AtSegment(f, s, events, q, false) && j < |events|
    ensures Claimed(f, s, events[j].id, q)
  {
    assert SegmentClaimed(f, s, q - 1);
    assert events[j] in events;
  }

  // ---------- Indexing every segment ----------

  ghost function Contents(dir: map<string, Entry>, list: seq<Listed>): (r: seq<Bytes>)
    ensures |r| == |list|
  {
    seq(|list|, i requires 0 <= i < |list| => DataOf(dir, list[i].name))
  }

  lemma ListedContents(dir: map<string, Entry>, list: seq<Listed>)
    requires IsListing(dir, list)
    ensures |Contents(dir, list)| == |list|
    ensures forall i :: 0 <= i < |list| ==> list[i].name in dir && dir[list[i].name] == File(Contents(dir, list)[i])
  {
    hide ParseName, IsTemp;
  }

  /** The first `n` files are intact, in sequence, and repeat no ID. */
  ghost predicate Intact(f: Files, list: seq<Listed>, segments: seq<Bytes>, n: nat) {
    && n <= |list| == |segments|
    && (forall i :: 0 <= i < n ==>
         list[i].x == FieldsOf(f, i, segments[i]) && segments[i] != [] && f.Read(segments[i]).Some?)
    && BytesUpto(segments, n) <= MAX_LEDGER_BYTES
    && DistinctIds(Upto(f, segments, n))
  }

  ghost predicate ClaimFilesUpto(f: Files, dir: map<string, ClaimEntry>, segments: seq<Bytes>, n: nat) {
    n <= |segments| && forall i :: 0 <= i < n ==> EventsClaimed(f, dir, EventsOf(f, segments[i]), i + 1)
  }

  lemma ClaimFilesKept(f: Files, dir: map<string, ClaimEntry>, dir': map<string, ClaimEntry>, segments: seq<Bytes>,
      n: nat)
    requires FilesOk(f) && KeepsClaims(dir, dir') && ClaimFilesUpto(f, dir, segments, n)
    ensures ClaimFilesUpto(f, dir', segments, n)
  {
    hide FilesOk, KeepsClaims, EventsClaimed;
    forall i | 0 <= i < n ensures EventsClaimed(f, dir', EventsOf(f, segments[i]), i + 1) {
      StillClaimed(f, dir, dir', EventsOf(f, segments[i]), i + 1);
    }
  }

  lemma IntactStep(f: Files, list: seq<Listed>, segments: seq<Bytes>, n: nat)
    requires Intact(f, list, segments, n) && n < |segments|
    requires list[n].x == FieldsOf(f, n, segments[n]) && segments[n] != [] && f.Read(segments[n]).Some?
    requires BytesUpto(segments, n + 1) <= MAX_LEDGER_BYTES
    requires DistinctIds(EventsOf(f, segments[n])) && Ids(Upto(f, segments, n)) !! Ids(EventsOf(f, segments[n]))
    ensures Intact(f, list, segments, n + 1)
    ensures Ids(Upto(f, segments, n + 1)) == Ids(Upto(f, segments, n)) + Ids(EventsOf(f, segments[n]))
  {
    hide DistinctIds, Ids, FieldsOf, EventsOf;
    DistinctConcat(Upto(f, segments, n), EventsOf(f, segments[n]));
    IdsOfConcat(Upto(f, segments, n), EventsOf(f, segments[n]));
  }

  lemma ReadLaw(f: Files, raw: Bytes)
    requires FilesOk(f) && f.Read(raw).Some?
    ensures ReadOk(raw, EventsOf(f, raw))
  {
  }

  /** A healthy store passes every check of the loop. */
  lemma HealthySegment(f: Files, raw: Raw, s: Store, list: seq<Listed>, i: nat)
    requires Healthy(f, raw, s) && IsListing(raw.segments, list) && i < |list|
    ensures Contents(raw.segments, list) == s.segments && |list| == |s.segments|
    ensures list[i].x == FieldsOf(f, i, s.segments[i]) && f.Read(s.segments[i]).Some? && s.segments[i] != []
    ensures BytesUpto(s.segments, i + 1) <= MAX_LEDGER_BYTES
    ensures Ids(Upto(f, s.segments, i)) !! Ids(EventsOf(f, s.segments[i]))
  {
    hide DistinctIds, Ids, ClaimsCorrect, StateOk, LegacyOk, ClaimsShown, ParseName, EntryOk, IsTemp;
    ContentsAre(f, raw.segments, s.segments, list);
    SegmentFacts(f, s.segments, i);
  }

  lemma ContentsAre(f: Files, dir: map<string, Entry>, segments: seq<Bytes>, list: seq<Listed>)
    requires SegmentsShown(f, dir, segments) && IsListing(dir, list)
    ensures Contents(dir, list) == segments && |list| == |segments|
    ensures forall i :: 0 <= i < |list| ==> list[i].x == FieldsOf(f, i, segments[i])
  {
    ListingIs(f, dir, segments, list);
  }

  lemma SegmentFacts(f: Files, segments: seq<Bytes>, i: nat)
    requires SegmentsOk(f, segments) && i < |segments|
    ensures BytesUpto(segments, i + 1) <= MAX_LEDGER_BYTES
    ensures Ids(Upto(f, segments, i)) !! Ids(EventsOf(f, segments[i]))
  {
    hide DistinctIds, Ids;
    BytesGrow(segments, i + 1, |segments|);
    PrefixDistinct(f, segments, i + 1, |segments|);
    DistinctConcat(Upto(f, segments, i), EventsOf(f, segments[i]));
  }

  lemma {:induction false} BytesGrow(segments: seq<Bytes>, n: nat, m: nat)
    requires n <= m <= |segments|
    ensures BytesUpto(segments, n) <= BytesUpto(segments, m)
  {
    if n < m { BytesGrow(segments, n, m - 1); }
  }

  /** The saved state this run started from. */
  /** A pre-v1 ledger is imported when no segment was committed yet. */
  ghost predicate ImportsInto(dir: map<string, Entry>, oldLedger: Option<Bytes>) {
    CommittedNames(dir) == {} && oldLedger.Some? && oldLedger.value != []
  }

  lemma ListsNothing(dir: map<string, Entry>, list: seq<Listed>)
    requires IsListing(dir, list)
    ensures list == [] <==> CommittedNames(dir) == {}
  {
    hide ParseName, IsTemp;
    if list != [] { assert list[0].name in Names(list); }
  }

  ghost predicate StateSeen(s: Store, found: bool, last: nat) {
    found == s.state.Some? && (found ==> last == s.state.value.lastSequence)
  }

  ghost predicate Scanning(f: Files, raw: Raw, t0: seq<Op>, s0: Store, t: seq<Op>, s: Store, n: nat) {
    && Healthy(f, raw, s) && Progress(f, t0, s0, t, s) && !NeedsImport(s)
    && s.segments == s0.segments && s.state == s0.state
    && n <= |s.segments| && ClaimedUpto(f, s, n)
  }

  lemma ScanningSegment(f: Files, raw: Raw, t0: seq<Op>, s0: Store, t: seq<Op>, s: Store, list: seq<Listed>, n: nat,
      found: bool, last: nat)
    requires FilesOk(f) && Scanning(f, raw, t0, s0, t, s, n) && StateSeen(s0, found, last)
    requires IsListing(raw.segments, list) && n < |list|
    ensures n < |s.segments| && AtSegment(f, s, EventsOf(f, s.segments[n]), n + 1, !found || n + 1 > last)
    ensures Healthy(f, raw, s)
  {
    hide Inv, Progress, Log, ReconcilePlan;
    HealthySegment(f, raw, s, list, n);
  }

  lemma ScannedSegment(f: Files, raw: Raw, raw': Raw, t0: seq<Op>, s0: Store, t: seq<Op>, s: Store, t': seq<Op>,
      s': Store, n: nat, link: bool)
    requires FilesOk(f) && Scanning(f, raw, t0, s0, t, s, n) && n < |s.segments|
    requires Indexing(f, raw', t, s, t', s', EventsOf(f, s.segments[n]), n + 1, link)
    requires KeepsClaims(raw.ids, raw'.ids)
    ensures Scanning(f, raw', t0, s0, t', s', n)
    ensures SegmentClaimed(f, s', n) ==> Scanning(f, raw', t0, s0, t', s', n + 1)
  {
    hide FilesOk, Inv, Progress, SegmentClaimed, KeepsClaims, SegmentsShown, ClaimsShown, StateShown, LegacyShown;
    ProgressCompose(f, t0, s0, t, s, t', s');
    ClaimedUptoKept(f, raw.ids, raw'.ids, s, s', n);
  }

  lemma ClaimedUptoKept(f: Files, dir: map<string, ClaimEntry>, dir': map<string, ClaimEntry>, s: Store, s': Store,
      n: nat)
    requires FilesOk(f) && ClaimsShown(dir, s.claims) && ClaimsShown(dir', s'.claims) && KeepsClaims(dir, dir')
    requires s'.segments == s.segments && n <= |s.segments| && ClaimedUpto(f, s, n)
    ensures ClaimedUpto(f, s', n)
  {
    hide FilesOk, ClaimsShown, KeepsClaims, Claimed;
    forall i | 0 <= i < n ensures SegmentClaimed(f, s', i) {
      assert SegmentClaimed(f, s, i);
      forall e <- EventsOf(f, s.segments[i]) ensures Claimed(f, s', e.id, i + 1) {
        ClaimKept(f, dir, dir', s, s', e.id, i + 1);
      }
    }
  }

  lemma ClaimKept(f: Files, dir: map<string, ClaimEntry>, dir': map<string, ClaimEntry>, s: Store, s': Store,
      id: string, q: nat)
    requires FilesOk(f) && ClaimsShown(dir, s.claims) && ClaimsShown(dir', s'.claims)
    requires KeepsClaims(dir, dir') && Claimed(f, s, id, q)
    ensures Claimed(f, s', id, q)
  {
    ClaimedIffShown(f, dir, s, id, q);
    ClaimedIffShown(f, dir', s', id, q);
    ClaimNotTemp(f.IdKey(id));
  }

  lemma ScanLog(f: Files, raw: Raw, t0: seq<Op>, s0: Store, t: seq<Op>, s: Store, n: nat)
    requires Scanning(f, raw, t0, s0, t, s, n)
    ensures Log(f, s) == Log(f, s0)
  {
  }

  lemma ScanningStart(f: Files, raw: Raw, t: seq<Op>, s: Store)
    requires Healthy(f, raw, s) && !NeedsImport(s)
    ensures Scanning(f, raw, t, s, t, s, 0)
  {
  }

  lemma ScanningDone(f: Files, raw: Raw, t0: seq<Op>, s0: Store, t: seq<Op>, s: Store, list: seq<Listed>)
    requires Scanning(f, raw, t0, s0, t, s, |list|) && IsListing(raw.segments, list)
    ensures |list| == |s.segments|
  {
    hide Inv, Progress, ClaimedUpto;
    ListingIs(f, raw.segments, s.segments, list);
  }

  lemma SegmentBytes(f: Files, list: seq<Listed>, segments: seq<Bytes>, n: nat)
    requires n < |list| == |segments|
    ensures BytesUpto(segments, n + 1) == BytesUpto(segments, n) + |segments[n]|
  {
  }

  lemma IntactTotals(f: Files, list: seq<Listed>, segments: seq<Bytes>, n: nat)
    requires Intact(f, list, segments, n + 1)
    ensures BytesUpto(segments, n + 1) == BytesUpto(segments, n) + list[n].x.size
    ensures |Upto(f, segments, n + 1)| == |Upto(f, segments, n)| + list[n].x.events
  {
  }

  lemma IntactStart(f: Files, list: seq<Listed>, segments: seq<Bytes>, dir: map<string, ClaimEntry>)
    requires |list| == |segments|
    ensures Intact(f, list, segments, 0) && ClaimFilesUpto(f, dir, segments, 0)
    ensures Ids(Upto(f, segments, 0)) == {} && Upto(f, segments, 0) == [] && BytesUpto(segments, 0) == 0
  {
  }

  lemma ClaimFilesStep(f: Files, dir: map<string, ClaimEntry>, segments: seq<Bytes>, n: nat)
    requires ClaimFilesUpto(f, dir, segments, n) && n < |segments|
    requires EventsClaimed(f, dir, EventsOf(f, segments[n]), n + 1)
    ensures ClaimFilesUpto(f, dir, segments, n + 1)
  {
  }

  lemma ProgressCompose(f: Files, t0: seq<Op>, s0: Store, t: seq<Op>, s: Store, t': seq<Op>, s': Store)
    requires Progress(f, t0, s0, t, s) && Progress(f, t, s, t', s')
    ensures Progress(f, t0, s0, t', s')
  {
  }

  // ---------- A reconciled store ----------

  /** What a successful reconciliation establishes of any directory contents:
      the segments are intact and numbered 1..n, no ID repeats, the claim files
      are exactly the index from IDs to sequence numbers, and the totals are exact. */
  ghost predicate Indexed(f: Files, s: Store) {
    && SegmentsOk(f, s.segments) && ClaimsCorrect(f, s) && ClaimedUpto(f, s, |s.segments|)
    && s.claims.Keys == Keys(f, Ids(Upto(f, s.segments, |s.segments|)))
    && s.state == Some(Totals(f, s, |s.segments|))
    && (s.legacy.Some? ==> f.Read(s.legacy.value).Some?)
  }

  ghost function ClaimMap(dir: map<string, ClaimEntry>): map<string, Claim> {
    map k | k in dir && !IsTemp(k) && dir[k].ClaimData? :: Claim(dir[k].id, dir[k].sequence)
  }

  /** The claim file of `x` names `x` and a segment that holds it. */
  ghost predicate IndexedAt(f: Files, dir: map<string, ClaimEntry>, segments: seq<Bytes>, x: string) {
    && Indexes(f, dir, x) && dir[f.IdKey(x)].version == 1
    && 1 <= dir[f.IdKey(x)].sequence <= |segments|
    && x in Ids(EventsOf(f, segments[dir[f.IdKey(x)].sequence - 1]))
  }

  lemma ClaimOf(f: Files, dir: map<string, ClaimEntry>, events: seq<Event>, q: nat, x: string)
    requires EventsClaimed(f, dir, events, q) && x in Ids(events)
    ensures f.IdKey(x) in dir && dir[f.IdKey(x)] == ClaimData(1, x, q)
  {
    var e :| e in events && e.id == x;
  }

  lemma EventIndexed(f: Files, dir: map<string, ClaimEntry>, segments: seq<Bytes>, x: string)
    requires ClaimFilesUpto(f, dir, segments, |segments|) && x in Ids(Upto(f, segments, |segments|))
    ensures IndexedAt(f, dir, segments, x)
  {
    hide Upto, EventsOf, Ids, EventsClaimed;
    InUpto(f, segments, |segments|, x);
    var i :| 0 <= i < |segments| && x in Ids(EventsOf(f, segments[i]));
    ClaimOf(f, dir, EventsOf(f, segments[i]), i + 1, x);
  }

  lemma ExactClaims(f: Files, dir: map<string, ClaimEntry>, s: Store)
    requires FilesOk(f) && ClaimFilesUpto(f, dir, s.segments, |s.segments|) && SegmentsOk(f, s.segments)
    requires |ClaimNames(dir)| == |Upto(f, s.segments, |s.segments|)|
    requires s.claims == ClaimMap(dir)
    ensures ClaimsShown(dir, s.claims) && ClaimsCorrect(f, s)
    ensures s.claims.Keys == Keys(f, Ids(Upto(f, s.segments, |s.segments|)))
  {
    var ids := Ids(Upto(f, s.segments, |s.segments|));
    assert |ids| == |ClaimNames(dir)|;
    hide Upto, BytesUpto, EventsOf, Ids, ClaimFilesUpto, SegmentsOk, IsTemp, IsClaimName;
    forall x <- ids ensures IndexedAt(f, dir, s.segments, x) { EventIndexed(f, dir, s.segments, x); }
    CountIsExact(f, dir, ids);
    forall k <- ClaimNames(dir) ensures ClaimFits(f, dir, s, k) {
      ClaimFileFits(f, dir, s, ids, k);
    }
    AllFit(f, dir, s);
  }

  lemma AllFit(f: Files, dir: map<string, ClaimEntry>, s: Store)
    requires s.claims == ClaimMap(dir)
    requires forall k <- ClaimNames(dir) :: ClaimFits(f, dir, s, k)
    ensures s.claims.Keys == ClaimNames(dir) && ClaimsShown(dir, s.claims) && ClaimsCorrect(f, s)
  {
    hide IsTemp, IsClaimName, Ids, EventsOf;
    forall k <- s.claims ensures ClaimFits(f, dir, s, k) {
      assert k in ClaimNames(dir);
    }
    assert s.claims.Keys == ClaimNames(dir);
  }

  ghost predicate ClaimFits(f: Files, dir: map<string, ClaimEntry>, s: Store, k: string) {
    && k in s.claims && IsClaimName(k) && k == f.IdKey(s.claims[k].id)
    && k in dir && dir[k] == ClaimData(1, s.claims[k].id, s.claims[k].sequence)
    && 1 <= s.claims[k].sequence <= |s.segments|
    && s.claims[k].id in Ids(EventsOf(f, s.segments[s.claims[k].sequence - 1]))
  }

  lemma ClaimFileFits(f: Files, dir: map<string, ClaimEntry>, s: Store, ids: set<string>, k: string)
    requires FilesOk(f) && s.claims == ClaimMap(dir) && k in ClaimNames(dir)
    requires forall x <- ids :: IndexedAt(f, dir, s.segments, x)
    requires k in Keys(f, ids)
    ensures ClaimFits(f, dir, s, k)
  {
    hide EventsOf, Ids, IsTemp, IsClaimName;
    var x :| x in ids && f.IdKey(x) == k;
    assert IndexedAt(f, dir, s.segments, x);
  }

  lemma FilesAreClaims(f: Files, dir: map<string, ClaimEntry>, s: Store, n: nat)
    requires FilesOk(f) && ClaimsShown(dir, s.claims) && n <= |s.segments|
    ensures ClaimFilesUpto(f, dir, s.segments, n) <==> ClaimedUpto(f, s, n)
  {
    hide ClaimsShown, FilesOk, Claimed;
    forall i | 0 <= i < n ensures SegmentClaimed(f, s, i) <==> EventsClaimed(f, dir, EventsOf(f, s.segments[i]),
        i + 1) {
      forall e <- EventsOf(f, s.segments[i])
        ensures Claimed(f, s, e.id, i + 1) <==> f.IdKey(e.id) in dir && dir[f.IdKey(e.id)] == ClaimData(1, e.id, i + 1)
      {
        ClaimedIffShown(f, dir, s, e.id, i + 1);
      }
    }
  }

  lemma ReconciledStore(f: Files, raw: Raw, list: seq<Listed>, s: Store)
    requires FilesOk(f) && IsListing(raw.segments, list) && s.segments == Contents(raw.segments, list)
    requires Intact(f, list, s.segments, |s.segments|) && ClaimFilesUpto(f, raw.ids, s.segments, |s.segments|)
    requires |ClaimNames(raw.ids)| == |Upto(f, s.segments, |s.segments|)| && s.claims == ClaimMap(raw.ids)
    requires StateShown(raw.state, s.state) && s.state == Some(Totals(f, s, |s.segments|))
    requires LegacyShown(raw.legacy, s.legacy) && (s.legacy.Some? ==> f.Read(s.legacy.value).Some?)
    ensures Shows(f, raw, s) && Indexed(f, s)
  {
    hide ClaimFilesUpto, ClaimedUpto, ClaimsShown, ClaimsCorrect, FilesOk, Totals, IsTemp, ParseName;
    assert Holds(f, raw.segments, list, s.segments);
    ExactClaims(f, raw.ids, s);
    FilesAreClaims(f, raw.ids, s, |s.segments|);
  }

  lemma OneIdEach(f: Files, s: Store)
    requires Inv(f, s)
    ensures |Ids(Upto(f, s.segments, |s.segments|))| == |Upto(f, s.segments, |s.segments|)|
  {
  }

  /** A healthy, fully claimed store has exactly one claim file per event. */
  lemma HealthyCount(f: Files, raw: Raw, s: Store)
    requires FilesOk(f) && Healthy(f, raw, s) && ClaimedUpto(f, s, |s.segments|)
    ensures forall name <- raw.ids :: IsTemp(name) || (IsClaimName(name) && !raw.ids[name].Irregular?)
    ensures |ClaimNames(raw.ids)| == |Upto(f, s.segments, |s.segments|)|
  {
    hide IsTemp, IsClaimName, StateOk, LegacyOk, FilesOk, SegmentsShown, Upto, BytesUpto, EventsOf, Ids, SegmentsOk,
        ClaimedUpto, ClaimFilesUpto;
    var n := |s.segments|;
    var ids := Ids(Upto(f, s.segments, n));
    FilesAreClaims(f, raw.ids, s, n);
    forall x <- ids ensures Indexes(f, raw.ids, x) && f.IdKey(x) in s.claims {
      EventIndexed(f, raw.ids, s.segments, x);
      ClaimedIffShown(f, raw.ids, s, x, 0);
    }
    KeysCount(f, raw.ids, ids);
    OneIdEach(f, s);
    assert ClaimNames(raw.ids) == s.claims.Keys;
    forall k <- s.claims ensures k in Keys(f, ids) {
      InUpto(f, s.segments, n, s.claims[k].id);
    }
    assert s.claims.Keys == Keys(f, ids);
  }

  lemma OnlySaveLeft(f: Files, s: Store)
    requires Inv(f, s) && !NeedsImport(s) && ClaimedUpto(f, s, |s.segments|)
    ensures ReconcilePlan(f, s) == SavePlan(f, s)
  {
    hide Inv, SavePlan, EventsOf;
    var n := |s.segments|;
    if NeedsClaims(s) {
      assert SegmentClaimed(f, s, n - 1);
      NoneMissing(f, s, LastEvents(f, s.segments), n, 0);
    }
  }

  const NO_STATE := StoreState(0, 0, 0, 0, "", 0)

  predicate SaneState(st: StoreState) {
    st.version == 1 && 0 <= st.totalBytes <= MAX_LEDGER_BYTES && 0 <= st.eventCount && 0 <= st.legacyBytes
  }

  lemma HealthyState(f: Files, s: Store)
    requires Inv(f, s) && s.state.Some?
    ensures SaneState(s.state.value)
    ensures s.state.value.legacyDigest == LegacyDigest(f, s) && s.state.value.legacyBytes == LegacyBytes(s)
  {
    BytesGrow(s.segments, s.state.value.lastSequence, |s.segments|);
  }

  /** The legacy fields of the totals, or a refusal when the legacy file cannot
      be the one that was migrated. */
  function LegacyFields(f: Files, saved: StoreState, list: seq<Listed>, legacy: Option<Bytes>): Result<(string, int),
      StoreError> {
    if legacy.None? then Ok(("", 0))
    else
      var digest := f.Digest(legacy.value);
      if saved.legacyDigest != "" then
        if saved.legacyBytes != |legacy.value| || saved.legacyDigest != digest then Err(LegacyChanged)
        else Ok((saved.legacyDigest, saved.legacyBytes))
      else if list == [] || (list[0].x.digest == digest && list[0].x.events == |EventsOf(f, legacy.value)|) then
        Ok((digest, |legacy.value|))
      else Err(LegacyChanged)
  }

  /** The pre-v1 file is the one recorded at its import; when none was recorded, it
      is what the first segment holds, or there is no segment. */
  ghost predicate LegacyAccepted(f: Files, saved: StateFile, raw: Bytes, segments: seq<Bytes>) {
    if saved.Present? && saved.state.legacyDigest != "" then
      saved.state.legacyBytes == |raw| && saved.state.legacyDigest == f.Digest(raw)
    else
      segments == [] || (f.Digest(segments[0]) == f.Digest(raw) && |EventsOf(f, segments[0])| == |EventsOf(f, raw)|)
  }

  lemma FieldsAccepted(f: Files, state: StateFile, saved: StoreState, list: seq<Listed>, segments: seq<Bytes>,
      raw: Bytes)
    requires Intact(f, list, segments, |segments|) && LegacyFields(f, saved, list, Some(raw)).Ok?
    requires saved == if state.Present? then state.state else NO_STATE
    ensures LegacyAccepted(f, state, raw, segments)
  {
    hide EventsOf, Upto, BytesUpto, DistinctIds;
    if list != [] { assert list[0].x == FieldsOf(f, 0, segments[0]); }
  }

  lemma HealthyLegacy(f: Files, raw: Raw, s: Store, list: seq<Listed>, saved: StoreState)
    requires FilesOk(f) && Healthy(f, raw, s) && IsListing(raw.segments, list)
    requires saved == if s.state.Some? then s.state.value else NO_STATE
    ensures LegacyFields(f, saved, list, s.legacy).Ok?
  {
    hide Upto, BytesUpto, ClaimsCorrect, IsTemp, ParseName, DistinctIds;
    ContentsAre(f, raw.segments, s.segments, list);
    if s.state.Some? { HealthyState(f, s); }
  }

  lemma HealthyParts(f: Files, raw: Raw, s: Store)
    requires Healthy(f, raw, s)
    ensures StateShown(raw.state, s.state) && LegacyShown(raw.legacy, s.legacy)
    ensures SegmentsShown(f, raw.segments, s.segments) && ClaimsShown(raw.ids, s.claims)
    ensures s.legacy.Some? ==> f.Read(s.legacy.value).Some?
    ensures s.state.Some? ==> SaneState(s.state.value)
    ensures SegmentTempsRegular(raw.segments) && ClaimTempsRegular(raw.ids)
  {
    if s.state.Some? { HealthyState(f, s); }
  }

  lemma TotalsAre(f: Files, saved: StoreState, list: seq<Listed>, legacy: Option<Bytes>, all: seq<Bytes>,
      current: StoreState)
    requires LegacyFields(f, saved, list, legacy).Ok? && |list| == |all|
    requires current == StoreState(1, |all|, BytesUpto(all, |all|), |Upto(f, all, |all|)|,
      LegacyFields(f, saved, list, legacy).value.0, LegacyFields(f, saved, list, legacy).value.1)
    ensures current == Totals(f, Store(all, map[], None, legacy), |all|)
  {
    hide Upto, BytesUpto;
  }

  lemma TotalsCount(f: Files, s: Store)
    ensures Totals(f, s, |s.segments|).eventCount == |Upto(f, s.segments, |s.segments|)|
    ensures Totals(f, s, |s.segments|).lastSequence == |s.segments|
  {
  }

  /** Everything is committed and claimed; only the totals may be stale. */
  ghost predicate AllIndexed(f: Files, raw: Raw, t0: seq<Op>, s0: Store, t: seq<Op>, s: Store) {
    Healthy(f, raw, s) && Progress(f, t0, s0, t, s) && !NeedsImport(s) && ClaimedUpto(f, s, |s.segments|)
  }

  lemma ReadyToSave(f: Files, raw: Raw, t0: seq<Op>, s0: Store, t: seq<Op>, s: Store, list: seq<Listed>, seen: Store)
    requires FilesOk(f) && AllIndexed(f, raw, t0, s0, t, s) && IsListing(raw.segments, list)
    requires seen.segments == Contents(raw.segments, list) && LegacyShown(raw.legacy, seen.legacy)
    ensures ReconcilePlan(f, s) == SavePlan(f, s)
    ensures Totals(f, s, |s.segments|) == Totals(f, seen, |seen.segments|)
    ensures forall name <- raw.ids :: IsTemp(name) || (IsClaimName(name) && !raw.ids[name].Irregular?)
    ensures |ClaimNames(raw.ids)| == |Upto(f, seen.segments, |seen.segments|)|
  {
    hide Inv, Progress, ReconcilePlan, SavePlan, ClaimedUpto, Totals, IsTemp, IsClaimName, Upto, FilesOk, ClaimsShown,
        SegmentsShown;
    OnlySaveLeft(f, s);
    HealthyParts(f, raw, s);
    ContentsAre(f, raw.segments, s.segments, list);
    SameTotals(f, s, seen);
    HealthyCount(f, raw, s);
  }

  lemma SaveDecision(f: Files, raw: Raw, s: Store)
    requires Healthy(f, raw, s)
    ensures var totals := Totals(f, s, |s.segments|);
            SavePlan(f, s) == if raw.state == Present(totals) then [] else [SaveState(totals)]
  {
    hide Inv, Totals;
  }

  lemma Continued(f: Files, t0: seq<Op>, s0: Store, t1: seq<Op>, s1: Store, t: seq<Op>, s: Store)
    requires Progress(f, t0, s0, t1, s1) && Progress(f, t1, s1, t, s)
    ensures Progress(f, t0, s0, t, s) && Log(f, s1) == Log(f, s0)
  {
    hide Inv, Log, ReconcilePlan;
  }

  lemma SameTotals(f: Files, s: Store, t: Store)
    requires s.segments == t.segments && s.legacy == t.legacy
    ensures Totals(f, s, |s.segments|) == Totals(f, t, |t.segments|)
  {
  }

  /** The name a writer gives to a new segment. */
  function NewName(f: Files, sequence: nat, data: Bytes, count: nat): string {
    Format(Fields(sequence, count, |data|, f.Digest(data)))
  }

  lemma NewNameIs(f: Files, i: nat, data: Bytes)
    ensures NewName(f, i + 1, data, |EventsOf(f, data)|) == NameOf(f, i, data)
  {
  }

  /** The segment directory after `CommitSegment`, whether or not it took effect. */
  lemma CommitShown(f: Files, dir: map<string, Entry>, dir': map<string, Entry>, segments: seq<Bytes>, data: Bytes,
      applied: bool)
    requires FilesOk(f) && SegmentsShown(f, dir, segments) && SegmentsOk(f, segments) && SegmentTempsRegular(dir)
    requires data != [] && f.Read(data).Some?
    requires var base := if applied then dir[NameOf(f, |segments|, data) := File(data)] else dir;
             dir' == base || dir' == base[SEGMENT_TEMP := File(data)]
    ensures NameOf(f, |segments|, data) !in dir && SegmentTempsRegular(dir')
    ensures SegmentsShown(f, dir', if applied then segments + [data] else segments)
  {
    SegmentLinkable(f, segments, data);
    hide FilesOk, SegmentsOk, IsTemp, NameOf, LinkableSegment, SegmentsShown, SegmentTempsRegular;
    NextNameFree(f, dir, segments, data);
    SegmentLinked(f, dir, segments, data);
    var base := if applied then dir[NameOf(f, |segments|, data) := File(data)] else dir;
    TempName();
    TempInvisible(f, base, SEGMENT_TEMP, File(data), if applied then segments + [data] else segments);
    FileAdded(dir, NameOf(f, |segments|, data), data);
    FileAdded(base, SEGMENT_TEMP, data);
  }

  lemma FileAdded(dir: map<string, Entry>, name: string, data: Bytes)
    requires SegmentTempsRegular(dir)
    ensures SegmentTempsRegular(dir[name := File(data)])
  {
    hide IsTemp;
  }

  /** The directories after the import's commit, whether or not it took effect. */
  lemma ImportHappened(f: Files, raw: Raw, raw': Raw, t: seq<Op>, s: Store, applied: bool)
    requires FilesOk(f) && Healthy(f, raw, s) && NeedsImport(s)
    requires var data := s.legacy.value;
             var base := if applied then raw.segments[NewName(f, 1, data,
                 |EventsOf(f, data)|) := File(data)] else raw.segments;
             raw'.segments == base || raw'.segments == base[SEGMENT_TEMP := File(data)]
    requires raw' == raw.(segments := raw'.segments)
    ensures NewName(f, 1, s.legacy.value, |EventsOf(f, s.legacy.value)|) !in raw.segments
    ensures var s' := if applied then Apply(f, s, LinkSegment(s.legacy.value)) else s;
            && Healthy(f, raw', s') && s'.state == s.state && (applied ==> !NeedsImport(s'))
            && Progress(f, t, s, t + (if applied then [LinkSegment(s.legacy.value)] else []), s')
  {
    hide NewName, FilesOk, SegmentsOk, ClaimsCorrect, StateOk, NameOf, Log, SegmentsShown, ClaimsShown, StateShown;
    var data := s.legacy.value;
    assert f.Read(data).Some?;
    assert s.segments == [];
    NewNameIs(f, 0, data);
    CommitShown(f, raw.segments, raw'.segments, s.segments, data, applied);
    ProgressStart(f, t, s, raw);
    if applied {
      assert ReconcilePlan(f, s)[0] == LinkSegment(data);
      ProgressStep(f, t, s, t, s);
      assert [] + [data] == [data];
    }
  }

  lemma SaveHappened(f: Files, raw: Raw, raw': Raw, t0: seq<Op>, s0: Store, t': seq<Op>, s: Store, st: StoreState,
      applied: bool)
    requires FilesOk(f) && Healthy(f, raw, s) && ReconcilePlan(f, s) == [SaveState(st)]
    requires raw' == raw.(state := if applied then Present(st) else raw.state)
    requires var op: seq<Op> := if applied then [SaveState(st)] else [];
             |op| <= |t'| && Progress(f, t0, s0, t'[..|t'| - |op|], s) && t' == t'[..|t'| - |op|] + op
    ensures var s' := if applied then Apply(f, s, SaveState(st)) else s;
            Healthy(f, raw', s') && Progress(f, t0, s0, t', s')
    ensures applied ==> ReconcilePlan(f, Apply(f, s, SaveState(st))) == []
  {
    hide Inv, SegmentsShown, ClaimsShown, Log, LogBytes, ReconcilePlan, Progress;
    if applied {
      var t := t'[..|t'| - 1];
      ProgressStep(f, t0, s0, t, s);
      ProgressInv(f, t0, s0, t', Apply(f, s, SaveState(st)));
      ReconcileStep(f, s);
    } else {
      assert t'[..|t'|] == t';
    }
  }

  /** A repository that was never used with this store, or only with its
      pre-v1 form. */
  lemma NewIsHealthy(f: Files, raw: Raw, s: Store)
    requires FilesOk(f) && s == Store([], map[], None, s.legacy) && LegacyShown(raw.legacy, s.legacy)
    requires raw == Raw(map[], map[], Missing, raw.legacy)
    ensures s.legacy.None? || f.Read(s.legacy.value).Some? ==> Healthy(f, raw, s)
  {
    assert Upto(f, [], 0) == [] && Ids([]) == {};
    var list: seq<Listed> := [];
    assert Names(list) == CommittedNames(raw.segments) == {};
    assert Holds(f, raw.segments, list, []);
  }

  /** Whatever directories recovery accepted: if the pre-v1 file is the one
      that was imported, the store is reachable and nothing is left to do. */
  lemma RepairedIsQuiet(f: Files, s: Store)
    requires Indexed(f, s) && LegacyOk(f, s.segments, s.legacy)
    requires s.legacy.Some? && s.legacy.value != [] ==> s.segments != []
    ensures Inv(f, s) && ReconcilePlan(f, s) == []
  {
    hide SegmentsOk, ClaimsCorrect, ClaimedUpto, Upto, BytesUpto;
    TotalsCount(f, s);
  }

  // ---------- Leftover temporary files ----------

  /** Only temporary files disappeared. */
  ghost predicate OnlyTempsGone<T>(before: map<string, T>, after: map<string, T>) {
    && (forall k <- after :: k in before && after[k] == before[k])
    && (forall k <- before :: k in after || IsTemp(k))
  }

  lemma ListingKept(f: Files, dir: map<string, Entry>, dir': map<string, Entry>, segments: seq<Bytes>)
    requires OnlyTempsGone(dir, dir') && SegmentsShown(f, dir, segments)
    ensures SegmentsShown(f, dir', segments)
  {
    hide ParseName, IsTemp, EventsOf;
    var list: seq<Listed> :| Holds(f, dir, list, segments);
    assert CommittedNames(dir') == CommittedNames(dir);
    assert forall i :: 0 <= i < |list| && ListedFrom(dir, list[i]) ==> ListedFrom(dir', list[i]);
    assert Holds(f, dir', list, segments);
  }

  lemma Cleaned(f: Files, raw: Raw, raw': Raw, s: Store)
    requires Healthy(f, raw, s)
    requires OnlyTempsGone(raw.segments, raw'.segments) && OnlyTempsGone(raw.ids, raw'.ids)
    requires raw'.state == raw.state && raw'.legacy == raw.legacy
    ensures Healthy(f, raw', s)
  {
    hide Inv, IsTemp, IsClaimName, SegmentsShown;
    ListingKept(f, raw.segments, raw'.segments, s.segments);
  }

  // ---------- Appending a batch ----------

  /** Right after recovery the operations `t` link the segment of the batch. */
  ghost predicate Committed(f: Files, t0: seq<Op>, s0: Store, t: seq<Op>, events: seq<Event>) {
    t0 + ReconcilePlan(f, s0) + [LinkSegment(Encoded(f, events))] <= t
  }

  /** A writer that only recovered committed nothing of its own. */
  lemma NotCommitted(f: Files, t0: seq<Op>, s0: Store, t: seq<Op>, s: Store, events: seq<Event>)
    requires Progress(f, t0, s0, t, s)
    ensures !Committed(f, t0, s0, t, events)
  {
    hide Inv, ReconcilePlan, Log, LogBytes;
    assert |t| <= |t0 + ReconcilePlan(f, s0)|;
  }

  lemma AppendedCommitted(f: Files, t0: seq<Op>, s0: Store, t: seq<Op>, s: Store, events: seq<Event>)
    requires Appended(f, t0, s0, t, s, events)
    ensures Committed(f, t0, s0, t, events)
  {
  }

  /** From `s0` to `s` the writer recovered, committed `events` as one segment
      at the end of the log, and indexed as much of it as `t` tells. */
  ghost predicate Appended(f: Files, t0: seq<Op>, s0: Store, t: seq<Op>, s: Store, events: seq<Event>) {
    && Inv(f, s) && Log(f, s) == Log(f, s0) + events && s.legacy == s0.legacy
    && Committed(f, t0, s0, t, events)
    && t + ReconcilePlan(f, s)
       == t0 + ReconcilePlan(f, s0) + [LinkSegment(Encoded(f, events))] + IndexPlan(f, s, events)
  }

  /** The writer recovered and may commit `events` with content `data`. */
  ghost predicate MayCommit(f: Files, raw: Raw, t0: seq<Op>, s0: Store, t: seq<Op>, s: Store, events: seq<Event>,
      data: Bytes) {
    && Healthy(f, raw, s) && Progress(f, t0, s0, t, s) && ReconcilePlan(f, s) == []
    && events != [] && f.Encode(events) == Some(data) && Accepts(f, s, events, data)
  }

  lemma EncodedReads(f: Files, events: seq<Event>)
    requires FilesOk(f) && events != [] && f.Encode(events).Some?
    ensures var data := f.Encode(events).value;
            data != [] && f.Read(data) == Some(events) && EventsOf(f, data) == events && Encoded(f, events) == data
            && ReadOk(data, events)
  {
  }

  lemma CommitAppends(f: Files, t0: seq<Op>, s0: Store, t: seq<Op>, s: Store, events: seq<Event>, data: Bytes)
    requires FilesOk(f) && Progress(f, t0, s0, t, s) && ReconcilePlan(f, s) == []
    requires events != [] && f.Encode(events) == Some(data) && Accepts(f, s, events, data)
    ensures Appended(f, t0, s0, t + [LinkSegment(data)], Apply(f, s, LinkSegment(data)), events)
  {
    hide FilesOk, Inv, Log, LogBytes, IndexPlan, ReconcilePlan, Accepts;
    EncodedReads(f, events);
    CommitStep(f, s, events, data);
    IndexIsRecovery(f, s, events, data);
  }

  lemma FirstToIndex(f: Files, s: Store, events: seq<Event>, data: Bytes)
    requires FilesOk(f) && Inv(f, s) && ReconcilePlan(f, s) == [] && f.Read(data) == Some(events)
    ensures var s' := Apply(f, s, LinkSegment(data)); AtSegment(f, s', events, |s.segments| + 1, true)
  {
    hide Inv, ReconcilePlan;
    Quiescent(f, s);
  }

  lemma AppendedInv(f: Files, t0: seq<Op>, s0: Store, t: seq<Op>, s: Store, events: seq<Event>)
    requires Appended(f, t0, s0, t, s, events)
    ensures Inv(f, s)
  {
  }

  function GrownBy(st: StoreState, events: seq<Event>, data: Bytes): StoreState {
    StoreState(1, st.lastSequence + 1, st.totalBytes + |data|, st.eventCount + |events|, st.legacyDigest,
        st.legacyBytes)
  }

  lemma NextTotals(f: Files, s: Store, data: Bytes)
    ensures var s' := Apply(f, s, LinkSegment(data));
            Totals(f, s', |s'.segments|) == GrownBy(Totals(f, s, |s.segments|), EventsOf(f, data), data)
  {
    UptoSame(f, s.segments, s.segments + [data], |s.segments|);
  }

  /** The batch is the last segment, no claim of it was linked by this writer
      yet, and `st` are the totals it is about to save. */
  ghost predicate JustCommitted(f: Files, t0: seq<Op>, s0: Store, t: seq<Op>, s: Store, events: seq<Event>,
      st: StoreState) {
    && Appended(f, t0, s0, t, s, events) && AtSegment(f, s, events, st.lastSequence, true)
    && |s.segments| == st.lastSequence && st == Totals(f, s, |s.segments|)
  }

  lemma FewerKeysIf(f: Files, a: set<string>, b: set<string>)
    ensures KeysInjective(f, a + b) ==> KeysInjective(f, a)
  {
  }

  /** The writer's own checks after recovery decide whether the batch fits. */
  lemma AcceptedWhenFits(f: Files, raw: Raw, t0: seq<Op>, s0: Store, t: seq<Op>, s: Store, events: seq<Event>,
      data: Bytes, st: StoreState)
    requires FilesOk(f) && Healthy(f, raw, s) && Progress(f, t0, s0, t, s) && ReconcilePlan(f, s) == []
    requires events != [] && f.Encode(events) == Some(data) && st == Totals(f, s, |s.segments|)
    ensures var passes := st.totalBytes + |data| <= MAX_LEDGER_BYTES && forall e <- events :: f.IdKey(e.id) !in raw.ids;
            && (passes ==> MayCommit(f, raw, t0, s0, t, s, events, data) && Fits(f, s0, events))
            && (Fits(f, s0, events) && KeysInjective(f, Ids(Log(f, s0)) + Ids(events)) ==> passes)
  {
    hide FilesOk, Inv, ReconcilePlan, KeysInjective, Ids, Log, LogBytes, SegmentsShown, StateShown, LegacyShown,
        ClaimsShown, Upto, BytesUpto;
    forall e <- events ensures f.IdKey(e.id) in raw.ids <==> f.IdKey(e.id) in s.claims {
      ClaimedIffShown(f, raw.ids, s, e.id, 1);
    }
    QuietBytes(f, s);
    if Accepts(f, s, events, data) { AcceptedFits(f, s, events, data); }
    if KeysInjective(f, Ids(Log(f, s)) + Ids(events)) { AcceptsExactly(f, s, events, data); }
  }

  /** The store after `CommitSegment`, whether or not it took effect. */
  lemma BatchCommitted(f: Files, raw: Raw, raw': Raw, t0: seq<Op>, s0: Store, t: seq<Op>, s: Store, t': seq<Op>,
      events: seq<Event>, data: Bytes, st: StoreState, applied: bool)
    requires FilesOk(f) && MayCommit(f, raw, t0, s0, t, s, events, data) && st == Totals(f, s, |s.segments|)
    requires var base := if applied then raw.segments[NewName(f, st.lastSequence + 1, data,
        |events|) := File(data)] else raw.segments;
             raw'.segments == base || raw'.segments == base[SEGMENT_TEMP := File(data)]
    requires raw' == raw.(segments := raw'.segments)
    requires t' == t + if applied then [LinkSegment(data)] else []
    ensures NewName(f, st.lastSequence + 1, data, |events|) !in raw.segments
    ensures Healthy(f, raw', if applied then Apply(f, s, LinkSegment(data)) else s)
    ensures if applied then JustCommitted(f, t0, s0, t', Apply(f, s, LinkSegment(data)), events,
        GrownBy(st, events, data))
            else Progress(f, t0, s0, t', s)
  {
    hide NewName, FilesOk, Log, NameOf, SegmentsShown, ClaimsShown, StateShown, LegacyShown, Progress, ReconcilePlan,
        IndexPlan, Accepts,
      SegmentsOk, ClaimsCorrect, StateOk, LegacyOk, LogBytes, Totals, AtSegment, Appended;
    EncodedReads(f, events);
    TotalsCount(f, s);
    NewNameIs(f, |s.segments|, data);
    CommitShown(f, raw.segments, raw'.segments, s.segments, data, applied);
    if applied {
      CommitAppends(f, t0, s0, t, s, events, data);
      AppendedInv(f, t0, s0, t', Apply(f, s, LinkSegment(data)), events);
      FirstToIndex(f, s, events, data);
      NextTotals(f, s, data);
    } else {
      assert t' == t;
    }
  }

  lemma JustCommittedAppended(f: Files, t0: seq<Op>, s0: Store, t: seq<Op>, s: Store, events: seq<Event>,
      st: StoreState)
    requires JustCommitted(f, t0, s0, t, s, events, st)
    ensures Appended(f, t0, s0, t, s, events)
  {
  }

  /** The writer has linked the first `j` claims of its own segment, the last one. */
  ghost predicate OwnClaims(f: Files, raw: Raw, t0: seq<Op>, s0: Store, t: seq<Op>, s: Store, events: seq<Event>,
      q: nat, j: nat) {
    && Healthy(f, raw, s) && Progress(f, t0, s0, t, s) && AtSegment(f, s, events, q, true)
    && s.segments == s0.segments && |s.segments| == q
    && j <= |events| && EventsClaimed(f, raw.ids, events[..j], q)
  }

  lemma OwnClaimsStart(f: Files, raw: Raw, t: seq<Op>, s: Store, events: seq<Event>, q: nat)
    requires Healthy(f, raw, s) && AtSegment(f, s, events, q, true) && |s.segments| == q
    ensures OwnClaims(f, raw, t, s, t, s, events, q, 0)
  {
  }

  lemma OwnClaimsHeld(f: Files, raw: Raw, t0: seq<Op>, s0: Store, t: seq<Op>, s: Store, events: seq<Event>, q: nat,
      j: nat)
    requires FilesOk(f) && OwnClaims(f, raw, t0, s0, t, s, events, q, j)
    ensures forall k :: 0 <= k < j ==> Claimed(f, s, events[k].id, q)
    ensures j < |events| ==> Claiming(f, raw, t0, s0, t, s, events, q, j)
  {
    hide FilesOk, Inv, Progress, Claimed, SegmentsShown, ClaimsShown, StateShown, LegacyShown;
    forall k | 0 <= k < j ensures Claimed(f, s, events[k].id, q) {
      assert events[..j][k] in events[..j];
      ClaimedIffShown(f, raw.ids, s, events[k].id, q);
    }
  }

  lemma OwnClaimLinked(f: Files, raw: Raw, raw': Raw, t0: seq<Op>, s0: Store, t: seq<Op>, s: Store, t': seq<Op>,
      s': Store, events: seq<Event>, q: nat, j: nat)
    requires FilesOk(f) && OwnClaims(f, raw, t0, s0, t, s, events, q, j) && j < |events|
    requires Healthy(f, raw', s') && Progress(f, t0, s0, t', s') && AtSegment(f, s', events, q, true)
        && s'.segments == s.segments
    requires KeepsClaims(raw.ids, raw'.ids)
    requires f.IdKey(events[j].id) in raw'.ids && raw'.ids[f.IdKey(events[j].id)] == ClaimData(1, events[j].id, q)
    ensures OwnClaims(f, raw', t0, s0, t', s', events, q, j + 1)
  {
    hide FilesOk, Healthy, Progress, KeepsClaims;
    StillClaimed(f, raw.ids, raw'.ids, events[..j], q);
    assert events[..j + 1] == events[..j] + [events[j]];
  }

  /** With all its claims linked, only the totals are left to save. */
  lemma OnlyTotalsLeft(f: Files, raw: Raw, t0: seq<Op>, s0: Store, t: seq<Op>, s: Store, events: seq<Event>, q: nat)
    requires FilesOk(f) && OwnClaims(f, raw, t0, s0, t, s, events, q, |events|)
    ensures ReconcilePlan(f, s) == [SaveState(Totals(f, s, |s.segments|))]
    ensures Totals(f, s, |s.segments|) == Totals(f, s0, |s0.segments|)
  {
    hide FilesOk, Progress, Claimed, SegmentsOk, ClaimsCorrect, StateOk, LegacyOk, Totals, Shows;
    OwnClaimsHeld(f, raw, t0, s0, t, s, events, q, |events|);
    ProgressInv(f, t0, s0, t, s);
    SameTotals(f, s, s0);
    NoneMissing(f, s, events, q, 0);
    assert s.state != Some(Totals(f, s, |s.segments|)) by { TotalsCount(f, s); }
  }

  lemma AppendedIds(f: Files, t0: seq<Op>, s0: Store, t: seq<Op>, s: Store, events: seq<Event>)
    requires Appended(f, t0, s0, t, s, events)
    ensures Ids(Log(f, s)) == Ids(Log(f, s0)) + Ids(events)
  {
    IdsOfConcat(Log(f, s0), events);
  }

  lemma AppendedProgress(f: Files, t0: seq<Op>, s0: Store, t1: seq<Op>, s1: Store, t: seq<Op>, s: Store,
      events: seq<Event>)
    requires Appended(f, t0, s0, t1, s1, events) && Progress(f, t1, s1, t, s) && s.segments == s1.segments
    ensures Appended(f, t0, s0, t, s, events)
  {
    hide Inv, Log, ReconcilePlan, Upto, BytesUpto;
    assert IndexPlan(f, s, events) == IndexPlan(f, s1, events);
  }
}
