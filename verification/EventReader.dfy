/** The lock-free reader of the event store (internal/hooks/event_store.go). It
    lists the segment directory once, then opens the files it listed while
    writers go on. */
module EventReader {
  import opened Model
  import opened Jsonl
  import opened SegmentNames
  import opened LedgerProtocol
  import opened Directories
  import opened Recovery
  import EventStore
  import LedgerRuns

  // ---------- What a read needs, and what it returns ----------

  predicate LegacyReadable(f: Files, legacy: Option<Entry>) {
    legacy.Some? ==> legacy.value.File? && f.Read(legacy.value.data).Some?
  }

  /** A pre-v1 file beside segments must be the one that was imported. */
  predicate LegacyMatches(f: Files, state: StateFile, legacy: Option<Entry>, first: Fields)
    requires LegacyReadable(f, legacy)
  {
    legacy.Some? ==>
      var raw := legacy.value.data;
      && state.Present?
      && first.size == |raw| && first.events == |EventsOf(f, raw)| && first.digest == f.Digest(raw)
      && (state.state.legacyDigest != "" ==>
           state.state.legacyBytes == |raw| && state.state.legacyDigest == f.Digest(raw))
  }

  function TotalSize(list: seq<Listed>, n: nat): nat
    requires n <= |list|
  {
    if n == 0 then 0 else TotalSize(list, n - 1) + list[n - 1].x.size
  }

  predicate SegmentReadable(f: Files, files: map<string, Entry>, l: Listed) {
    && l.name in files && files[l.name].File? && f.Read(files[l.name].data).Some?
    && |f.Read(files[l.name].data).value| == l.x.events && f.Digest(files[l.name].data) == l.x.digest
  }

  ghost predicate SegmentsReadable(f: Files, files: map<string, Entry>, list: seq<Listed>, n: nat)
    requires n <= |list|
  {
    && (forall i :: 0 <= i < n ==> list[i].x.sequence == i + 1 && SegmentReadable(f, files, list[i]))
    && TotalSize(list, n) <= MAX_LEDGER_BYTES
    && DistinctIds(Upto(f, Contents(files, list), n))
  }

  ghost predicate Readable(f: Files, files: map<string, Entry>, state: StateFile, legacy: Option<Entry>,
      list: seq<Listed>) {
    && LegacyReadable(f, legacy)
    && (list != [] ==>
         && !state.Corrupt? && !state.NotAFile?
         && LegacyMatches(f, state, legacy, list[0].x) && SegmentsReadable(f, files, list, |list|))
  }

  ghost function ReadValue(f: Files, files: map<string, Entry>, legacy: Option<Entry>, list: seq<Listed>): seq<Event> {
    if list != [] then Upto(f, Contents(files, list), |list|)
    else if legacy.Some? && legacy.value.File? then EventsOf(f, legacy.value.data)
    else []
  }

  // ---------- The reader ----------

  /** Appending one segment's events, none of which may repeat an ID. */
  method AddEvents(result: seq<Event>, seenIds: set<string>, events: seq<Event>)
      returns (ok: bool, all: seq<Event>, seen: set<string>)
    requires DistinctIds(result) && seenIds == Ids(result)
    ensures ok <==> DistinctIds(result + events)
    ensures ok ==> all == result + events && seen == Ids(all)
  {
    hide DistinctIds, Ids;
    all, seen := result, seenIds;
    var i := 0;
    assert result + events[..0] == result;
    while i < |events|
      invariant 0 <= i <= |events|
      invariant all == result + events[..i] && DistinctIds(all) && seen == Ids(all)
    {
      var event := events[i];
      DistinctAppend(all, event);
      assert result + events[..i + 1] == all + [event];
      if event.id in seen {
        PrefixOfConcat(result, events, i + 1);
        return false, all, seen;
      }
      all := all + [event];
      seen := seen + {event.id};
      i := i + 1;
    }
    assert events[..i] == events;
    ok := true;
  }

  lemma PrefixOfConcat(a: seq<Event>, b: seq<Event>, n: nat)
    requires n <= |b|
    ensures DistinctIds(a + b) ==> DistinctIds(a + b[..n])
  {
    hide DistinctIds;
    assert (a + b)[..|a| + n] == a + b[..n];
    if DistinctIds(a + b) { DistinctPrefix(a + b, |a| + n); }
  }

  lemma GapStays(f: Files, files: map<string, Entry>, list: seq<Listed>, n: nat, m: nat)
    requires n <= m <= |list|
    ensures SegmentsReadable(f, files, list, m) ==> SegmentsReadable(f, files, list, n)
  {
    hide DistinctIds, Contents, Upto;
    if SegmentsReadable(f, files, list, m) {
      PrefixDistinct(f, Contents(files, list), n, m);
      SizesGrow(list, n, m);
    }
  }

  lemma ReadableStep(f: Files, files: map<string, Entry>, list: seq<Listed>, n: nat)
    requires n < |list| && SegmentsReadable(f, files, list, n)
    ensures var before := Upto(f, Contents(files, list), n);
            SegmentsReadable(f, files, list, n + 1) <==>
              && list[n].x.sequence == n + 1 && TotalSize(list, n) + list[n].x.size <= MAX_LEDGER_BYTES
              && SegmentReadable(f, files, list[n])
              && DistinctIds(before + EventsOf(f, DataOf(files, list[n].name)))
    ensures Upto(f, Contents(files, list), n + 1)
         == Upto(f, Contents(files, list), n) + EventsOf(f, DataOf(files, list[n].name))
    ensures DistinctIds(Upto(f, Contents(files, list), n))
  {
    hide DistinctIds, DataOf, EventsOf;
  }

  lemma {:induction false} SizesGrow(list: seq<Listed>, n: nat, m: nat)
    requires n <= m <= |list|
    ensures TotalSize(list, n) <= TotalSize(list, m)
  {
    if n < m { SizesGrow(list, n, m - 1); }
  }

  /** Reading every listed segment in turn. */
  method ReadSegments(f: Files, files: map<string, Entry>, list: seq<Listed>) returns (ok: bool, result: seq<Event>)
    ensures ok <==> SegmentsReadable(f, files, list, |list|)
    ensures ok ==> result == Upto(f, Contents(files, list), |list|)
  {
    hide DistinctIds, Ids, SegmentsReadable, Contents, Upto, TotalSize;
    result := [];
    var seen: set<string> := {};
    var total := 0;
    var i := 0;
    NothingRead(f, files, list);
    while i < |list|
      invariant 0 <= i <= |list|
      invariant SegmentsReadable(f, files, list, i)
      invariant result == Upto(f, Contents(files, list), i) && seen == Ids(result) && total == TotalSize(list, i)
    {
      GapStays(f, files, list, i + 1, |list|);
      ReadableStep(f, files, list, i);
      SizeStep(list, i);
      var l := list[i];
      total := total + l.x.size;
      if l.x.sequence != i + 1 || total > MAX_LEDGER_BYTES { return false, result; }
      var events := EventStore.ReadSegment(f, files, l);
      if events.Err? { return false, result; }
      var fine;
      fine, result, seen := AddEvents(result, seen, events.value);
      if !fine { return false, result; }
      i := i + 1;
    }
    ok := true;
  }

  lemma NothingRead(f: Files, files: map<string, Entry>, list: seq<Listed>)
    ensures SegmentsReadable(f, files, list, 0) && Upto(f, Contents(files, list), 0) == [] && TotalSize(list, 0) == 0
    ensures Ids([]) == {} && DistinctIds([])
  {
    assert Ids([]) == {};
  }

  lemma SizeStep(list: seq<Listed>, n: nat)
    requires n < |list|
    ensures TotalSize(list, n + 1) == TotalSize(list, n) + list[n].x.size
  {
  }

  lemma ReadableListing(f: Files, dir: map<string, Entry>, files: map<string, Entry>, a: seq<Listed>, b: seq<Listed>)
    requires IsListing(dir, a) && IsListing(dir, b)
    ensures (a == []) == (b == [])
    ensures SegmentsReadable(f, files, a, |a|) ==> b == a
  {
    hide ParseName, IsTemp, DistinctIds, Upto, TotalSize, SegmentReadable;
    if a != [] { assert a[0].name in Names(a) && a[0].name in Names(b); }
    if b != [] { assert b[0].name in Names(b) && b[0].name in Names(a); }
    if SegmentsReadable(f, files, a, |a|) { ContiguousUnique(dir, a, b); }
  }

  lemma ListedIsListable(dir: map<string, Entry>, list: seq<Listed>)
    requires IsListing(dir, list)
    ensures Listable(dir)
  {
    hide ParseName, IsTemp;
    forall name <- dir ensures IsTemp(name) || EntryOk(dir, name) {
      if !IsTemp(name) {
        assert name in CommittedNames(dir) && name in Names(list);
        var i :| 0 <= i < |list| && list[i].name == name;
        assert ListedFrom(dir, list[i]);
      }
    }
  }

  /** What the reader decides for its own listing, it decides for every listing
      of the directory. */
  lemma OneListing(f: Files, dir: map<string, Entry>, files: map<string, Entry>, state: StateFile,
      legacy: Option<Entry>,
                   own: seq<Listed>, other: seq<Listed>)
    requires IsListing(dir, own) && IsListing(dir, other)
    ensures Readable(f, files, state, legacy, own) <==> Readable(f, files, state, legacy, other)
    ensures Readable(f, files, state, legacy, own) ==> ReadValue(f, files, legacy, own) == ReadValue(f, files, legacy,
        other)
  {
    hide IsListing, SegmentsReadable, LegacyMatches, LegacyReadable;
    ReadableListing(f, dir, files, own, other);
    ReadableListing(f, dir, files, other, own);
  }

  /** `dir` is what the listing saw and `files` what the later opens see. */
  method ReadEventStore(f: Files, dir: map<string, Entry>, files: map<string, Entry>, state: StateFile,
      legacy: Option<Entry>)
    returns (r: Result<seq<Event>, StoreError>)
    ensures r.Ok? <==> exists list :: IsListing(dir, list) && Readable(f, files, state, legacy, list)
    ensures r.Ok? ==> forall list :: IsListing(dir, list) ==> r.value == ReadValue(f, files, legacy, list)
  {
    hide SegmentsReadable, IsListing, Listable, Contents, Readable, ReadValue;
    forall list | IsListing(dir, list) ensures Listable(dir) { ListedIsListable(dir, list); }
    var segments := EventStore.ListSegments(dir);
    if segments.Err? { return Err(segments.error); }
    forall other | IsListing(dir, other)
      ensures Readable(f, files, state, legacy, segments.value) <==> Readable(f, files, state, legacy, other)
      ensures Readable(f, files, state, legacy, segments.value) ==>
              ReadValue(f, files, legacy, segments.value) == ReadValue(f, files, legacy, other)
    {
      OneListing(f, dir, files, state, legacy, segments.value, other);
    }
    r := ReadListed(f, files, state, legacy, segments.value);
  }

  /** Reading what was listed. */
  method ReadListed(f: Files, files: map<string, Entry>, state: StateFile, legacy: Option<Entry>, list: seq<Listed>)
    returns (r: Result<seq<Event>, StoreError>)
    ensures r.Ok? <==> Readable(f, files, state, legacy, list)
    ensures r.Ok? ==> r.value == ReadValue(f, files, legacy, list)
  {
    hide SegmentsReadable, Contents;
    if legacy.Some? && (!legacy.value.File? || f.Read(legacy.value.data).None?) { return Err(BadLegacy); }
    if list == [] { return Ok(if legacy.Some? then f.Read(legacy.value.data).value else []); }
    if state.Corrupt? || state.NotAFile? { return Err(BadState); }
    if legacy.Some? {
      if state.Missing? { return Err(BadState); }
      var data, first, saved := legacy.value.data, list[0].x, state.state;
      var digest := f.digest(data);
      if first.size != |data| || first.events != |f.read(data).value| || first.digest != digest {
        return Err(LegacyChanged);
      }
      if saved.legacyDigest != "" && (saved.legacyBytes != |data| || saved.legacyDigest != digest) {
        return Err(LegacyChanged);
      }
    }
    var ok, events := ReadSegments(f, files, list);
    r := if ok then Ok(events) else Err(DamagedSegment);
  }

  // ---------- Reading a quiet store ----------

  lemma {:induction false} SizesAre(f: Files, list: seq<Listed>, segments: seq<Bytes>, n: nat)
    requires n <= |list| == |segments|
    requires forall i :: 0 <= i < n ==> list[i].x == FieldsOf(f, i, segments[i])
    ensures TotalSize(list, n) == BytesUpto(segments, n)
  {
    hide EventsOf;
    if n > 0 { SizesAre(f, list, segments, n - 1); }
  }

  lemma ShownIsReadable(f: Files, raw: Raw, s: Store, list: seq<Listed>)
    requires Healthy(f, raw, s) && IsListing(raw.segments, list)
    ensures Contents(raw.segments, list) == s.segments && |list| == |s.segments|
    ensures SegmentsReadable(f, raw.segments, list, |list|)
    ensures list != [] ==> list[0].x == FieldsOf(f, 0, s.segments[0])
  {
    hide ClaimsCorrect, StateOk, LegacyOk, DistinctIds, Upto, BytesUpto, ParseName, IsTemp, EntryOk, EventsOf,
        TotalSize;
    ContentsAre(f, raw.segments, s.segments, list);
    ListedContents(raw.segments, list);
    SizesAre(f, list, s.segments, |list|);
    forall i | 0 <= i < |list| ensures list[i].x.sequence == i + 1 && SegmentReadable(f, raw.segments, list[i]) {
      IsReadable(f, raw.segments, list[i], s.segments, i);
    }
  }

  lemma IsReadable(f: Files, dir: map<string, Entry>, l: Listed, segments: seq<Bytes>, i: nat)
    requires i < |segments| && f.Read(segments[i]).Some?
    requires l.x == FieldsOf(f, i, segments[i]) && l.name in dir && dir[l.name] == File(segments[i])
    ensures l.x.sequence == i + 1 && SegmentReadable(f, dir, l)
  {
  }

  /** Without a writer running, a read of a reachable store succeeds exactly
      when no pre-v1 file is in its way, and then returns the log. */
  lemma QuietRead(f: Files, raw: Raw, s: Store, list: seq<Listed>)
    requires FilesOk(f) && Healthy(f, raw, s) && IsListing(raw.segments, list)
    ensures Readable(f, raw.segments, raw.state, raw.legacy, list) <==>
            s.segments == [] || s.legacy.None? || (s.legacy.value != [] && s.state.Some?)
    ensures ReadValue(f, raw.segments, raw.legacy, list) == Log(f, s)
  {
    hide SegmentsReadable, SegmentsShown, ClaimsShown, SegmentsOk, ClaimsCorrect, Upto, BytesUpto, IsListing, Contents;
    ShownIsReadable(f, raw, s, list);
    if s.segments != [] && s.legacy.Some? {
      hide EventsOf;
      if s.state.Some? { HealthyState(f, s); }
      assert s.segments[0] != [] by { FirstNotEmpty(f, s); }
    }
  }

  lemma FirstNotEmpty(f: Files, s: Store)
    requires Inv(f, s) && s.segments != []
    ensures s.segments[0] != []
  {
  }

  /** The one corner: writers accept an empty pre-v1 file, but the first batch
      they commit beside it makes every read fail. */
  lemma EmptyLegacyBlocksReads(f: Files, s: Store, events: seq<Event>, data: Bytes, raw: Raw, list: seq<Listed>)
    requires FilesOk(f) && Inv(f, s) && ReconcilePlan(f, s) == [] && s.legacy == Some([])
    requires data != [] && f.Read(data) == Some(events) && Accepts(f, s, events, data)
    requires Healthy(f, raw, Apply(f, s, LinkSegment(data))) && IsListing(raw.segments, list)
    ensures !Readable(f, raw.segments, raw.state, raw.legacy, list)
  {
    hide FilesOk, Healthy, Readable, Inv;
    QuietRead(f, raw, Apply(f, s, LinkSegment(data)), list);
  }

  // ---------- Reading while writers run ----------

  /** What a listing may see while `older` grows into `newer`: every segment
      that was there at its start, and none that is not there at its end. */
  ghost predicate Between(older: map<string, Entry>, dir: map<string, Entry>, newer: map<string, Entry>) {
    && (forall name <- older :: !IsTemp(name) ==> name in dir)
    && (forall name <- dir :: !IsTemp(name) ==> name in newer && newer[name] == dir[name])
  }

  /** Committed files never change, so an open sees what `newer` has. */
  ghost predicate Immutable(files: map<string, Entry>, newer: map<string, Entry>) {
    forall name <- files :: name in newer && !IsTemp(name) ==> files[name] == newer[name]
  }

  lemma SamePlace(f: Files, dir: map<string, Entry>, newer: map<string, Entry>, segments: seq<Bytes>,
      own: seq<Listed>, l: Listed)
    requires Holds(f, newer, own, segments) && ListedFrom(dir, l) && l.x.sequence > 0
    requires l.name in newer && newer[l.name] == dir[l.name]
    ensures l.x.sequence <= |segments| && newer[l.name] == File(segments[l.x.sequence - 1])
  {
    hide ParseName, IsTemp, EventsOf;
    assert l.name in CommittedNames(newer) && l.name in Names(own);
    var j :| 0 <= j < |own| && own[j].name == l.name;
    assert ListedFrom(newer, own[j]);
  }

  lemma SnapshotIsPrefix(f: Files, older: map<string, Entry>, a: seq<Bytes>, dir: map<string, Entry>,
      newer: map<string, Entry>, b: seq<Bytes>,
                         files: map<string, Entry>, list: seq<Listed>)
    requires SegmentsShown(f, older, a) && SegmentsShown(f, newer, b)
    requires Between(older, dir, newer) && Immutable(files, newer)
    requires IsListing(dir, list) && SegmentsReadable(f, files, list, |list|)
    ensures |a| <= |list| <= |b| && Contents(files, list) == b[..|list|]
  {
    hide ParseName, IsTemp, EventsOf, DistinctIds, Upto, Sorted, DistinctNames, TotalSize, SegmentReadable;
    var own: seq<Listed> :| Holds(f, newer, own, b);
    forall i | 0 <= i < |list| ensures i < |b| && DataOf(files, list[i].name) == b[i] {
      assert ListedFrom(dir, list[i]);
      SamePlace(f, dir, newer, b, own, list[i]);
      ReadableIsFile(f, files, list[i]);
    }
    if list != [] {
      assert ListedFrom(dir, list[|list| - 1]) && list[|list| - 1].x.sequence == |list|;
      SamePlace(f, dir, newer, b, own, list[|list| - 1]);
    }
    if a != [] { LastIsListed(f, older, a, dir, list); }
  }

  lemma ReadableIsFile(f: Files, files: map<string, Entry>, l: Listed)
    requires SegmentReadable(f, files, l)
    ensures l.name in files && files[l.name] == File(DataOf(files, l.name))
  {
  }

  lemma LastIsListed(f: Files, older: map<string, Entry>, a: seq<Bytes>, dir: map<string, Entry>, list: seq<Listed>)
    requires SegmentsShown(f, older, a) && a != [] && IsListing(dir, list) && Contiguous(list)
    requires forall name <- older :: !IsTemp(name) ==> name in dir
    ensures |a| <= |list|
  {
    hide ParseName, IsTemp, EventsOf;
    var own: seq<Listed> :| Holds(f, older, own, a);
    var l := own[|a| - 1];
    assert ListedFrom(older, l);
    assert l.name in CommittedNames(dir) && l.name in Names(list);
    var i :| 0 <= i < |list| && list[i].name == l.name;
    assert ListedFrom(dir, list[i]);
  }

  /** A read concurrent with any steps of any run returns the log as it was at
      one moment between the read's start and its end, or fails. */
  lemma ReadIsLinearizable(f: Files, start: LedgerRuns.System, run: seq<LedgerRuns.Action>, a: nat, b: nat,
                           older: map<string, Entry>, dir: map<string, Entry>, newer: map<string, Entry>,
                               files: map<string, Entry>,
                           state: StateFile, legacy: Option<Entry>, list: seq<Listed>)
    requires FilesOk(f) && LedgerRuns.Start(f, start) && a <= b <= |run|
    requires SegmentsShown(f, older, LedgerRuns.At(f, start, run, a).disk.segments)
    requires SegmentsShown(f, newer, LedgerRuns.At(f, start, run, b).disk.segments)
    requires LegacyShown(legacy, start.disk.legacy)
    requires Between(older, dir, newer) && Immutable(files, newer)
    requires IsListing(dir, list) && Readable(f, files, state, legacy, list)
    ensures exists j :: a <= j <= b && ReadValue(f, files, legacy, list) == Log(f, LedgerRuns.At(f, start, run, j).disk)
  {
    hide SegmentsShown, Between, Immutable, IsListing, SegmentsReadable, Contents, LedgerRuns.At, LedgerRuns.Start,
        Upto, EventsOf;
    var last := LedgerRuns.At(f, start, run, b).disk;
    if list == [] { NothingMissed(f, files, list); }
    SnapshotIsPrefix(f, older, LedgerRuns.At(f, start, run, a).disk.segments, dir, newer, last.segments, files, list);
    var j := LedgerRuns.MomentWith(f, start, run, a, b, |list|);
    var moment := LedgerRuns.At(f, start, run, j).disk;
    if list != [] { UptoSame(f, Contents(files, list), moment.segments, |list|); }
  }

  lemma NothingMissed(f: Files, files: map<string, Entry>, list: seq<Listed>)
    requires list == []
    ensures SegmentsReadable(f, files, list, |list|)
  {
    NothingRead(f, files, list);
  }
}
