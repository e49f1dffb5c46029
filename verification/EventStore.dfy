/** The event store's operations on its directories. Every file operation may
    fail, before or after it took effect; a kill leaves the same files behind. */
module EventStore {
  import opened Model
  import opened Jsonl
  import opened SegmentNames
  import opened LedgerProtocol
  import opened Directories
  import opened Recovery

  method ListSegments(dir: map<string, Entry>) returns (r: Result<seq<Listed>, StoreError>)
    ensures r.Ok? <==> Listable(dir)
    ensures r.Ok? ==> IsListing(dir, r.value)
  {
    hide ParseName, IsTemp;
    var list: seq<Listed> := [];
    var todo := dir.Keys;
    while todo != {}
      invariant todo <= dir.Keys
      invariant forall name <- dir :: name in todo || IsTemp(name) || EntryOk(dir, name)
      invariant forall l <- list :: ListedFrom(dir, l)
      invariant Sorted(list) && DistinctNames(list)
      invariant Names(list) == CommittedNames(dir) - todo
    {
      var name :| name in todo;
      var temp := IsTempName(name);
      if temp {
        todo := todo - {name};
        continue;
      }
      var fields := ParseEventSegmentName(name);
      if fields.None? || !dir[name].File? || |dir[name].data| != fields.value.size { return Err(BadDirectory); }
      var l := Listed(name, fields.value);
      assert forall k <- list :: k.name in Names(list);
      InsertedSorted(list, l);
      InsertedElements(list, l);
      NamesOf(list, InsertListed(list, l), l);
      list := InsertListed(list, l);
      todo := todo - {name};
    }
    r := Ok(list);
  }

  /** Reading one listed segment and checking it against its name. */
  method ReadSegment(f: Files, dir: map<string, Entry>, l: Listed) returns (r: Result<seq<Event>, StoreError>)
    ensures r.Ok? <==> l.name in dir && dir[l.name].File? && f.Read(dir[l.name].data).Some?
                       && |f.Read(dir[l.name].data).value| == l.x.events && f.Digest(dir[l.name].data) == l.x.digest
    ensures r.Ok? ==> r.value == EventsOf(f, dir[l.name].data)
  {
    if l.name !in dir || !dir[l.name].File? { return Err(DamagedSegment); }
    var raw := dir[l.name].data;
    var events := f.Read(raw);
    if events.None? { return Err(DamagedSegment); }
    if |events.value| != l.x.events || f.Digest(raw) != l.x.digest { return Err(DamagedSegment); }
    r := Ok(events.value);
  }

  /** Removing the temporary files of one directory. */
  method CleanDirectory<T>(dir: map<string, T>, regular: T -> bool)
      returns (ok: bool, fault: bool, left: map<string, T>)
    ensures OnlyTempsGone(dir, left)
    ensures ok ==> !fault && forall name <- left :: !IsTemp(name)
    ensures forall name <- dir :: name in left || regular(dir[name])
    ensures !ok ==> fault || exists name :: name in dir && IsTemp(name) && !regular(dir[name])
  {
    hide IsTemp;
    left, fault := dir, false;
    var todo := dir.Keys;
    while todo != {}
      invariant todo <= left.Keys && OnlyTempsGone(dir, left)
      invariant forall name <- left :: name in todo || !IsTemp(name)
      invariant forall name <- dir :: name in left || regular(dir[name])
    {
      var name :| name in todo;
      todo := todo - {name};
      var temp := IsTempName(name);
      if temp {
        if !regular(dir[name]) { return false, false, left; }
        if * { return false, true, left; }
        left := left - {name};
      }
    }
    ok := true;
  }

  /** The checks on the listed segment `i`: its number, its size in the total,
      and its content. */
  method CheckSegment(f: Files, dir: map<string, Entry>, list: seq<Listed>, i: nat, bytes: nat)
      returns (r: Result<seq<Event>, StoreError>)
    requires IsListing(dir, list) && i < |list|
    ensures var data := DataOf(dir, list[i].name);
            && data != []
            && (r.Ok? <==> && list[i].x == FieldsOf(f, i, data)
                           && f.Read(data).Some? && bytes + |data| <= MAX_LEDGER_BYTES)
            && (r.Ok? ==> r.value == EventsOf(f, data))
  {
    var l := list[i];
    ListedNonEmpty(dir, l);
    hide IsListing, ParseName, IsTemp;
    if l.x.sequence != i + 1 { return Err(SegmentGap); }
    if bytes + l.x.size > MAX_LEDGER_BYTES { return Err(LedgerFull); }
    r := ReadSegment(f, dir, l);
  }

  /** Counting the claim files, refusing anything else in the directory. */
  method CountClaims(dir: map<string, ClaimEntry>) returns (r: Result<nat, StoreError>)
    ensures r.Ok? <==> forall name <- dir :: IsTemp(name) || (IsClaimName(name) && !dir[name].Irregular?)
    ensures r.Ok? ==> r.value == |ClaimNames(dir)|
  {
    hide IsTemp, IsClaimName;
    var count := 0;
    var todo := dir.Keys;
    while todo != {}
      invariant todo <= dir.Keys
      invariant forall name <- dir :: name in todo || IsTemp(name) || (IsClaimName(name) && !dir[name].Irregular?)
      invariant count == |ClaimNames(dir) - todo|
    {
      var name :| name in todo;
      var temp := IsTempName(name);
      if !temp {
        var named := IsClaimFile(name);
        if !named || dir[name].Irregular? { return Err(IndexMismatch); }
        assert ClaimNames(dir) - (todo - {name}) == (ClaimNames(dir) - todo) + {name};
        count := count + 1;
      } else {
        assert ClaimNames(dir) - (todo - {name}) == ClaimNames(dir) - todo;
      }
      todo := todo - {name};
    }
    assert ClaimNames(dir) - todo == ClaimNames(dir);
    r := Ok(count);
  }

  class Ledger {
    const f: Files
    var segments: map<string, Entry>
    var ids: map<string, ClaimEntry>
    var state: StateFile
    var legacy: Option<Entry>
    ghost var trace: seq<Op>     // the operations that took effect
    ghost var faults: nat        // how many operations failed

    constructor (files: Files, oldLedger: Option<Bytes>)
      ensures f == files && trace == [] && faults == 0
      ensures FilesOk(f) && (oldLedger.Some? ==> f.Read(oldLedger.value).Some?) ==>
              Healthy(f, Disk(), Store([], map[], None, oldLedger))
    {
      f := files;
      segments, ids, state := map[], map[], Missing;
      legacy := if oldLedger.Some? then Some(File(oldLedger.value)) else None;
      trace, faults := [], 0;
      new;
      if FilesOk(f) { NewIsHealthy(f, Disk(), Store([], map[], None, oldLedger)); }
    }

    ghost function Disk(): Raw
      reads this
    {
      Raw(segments, ids, state, legacy)
    }

    /** The operation's target may be created although the call fails. */
    method CommitSegment(sequence: nat, data: Bytes, count: nat) returns (ok: bool, ghost applied: bool)
      modifies this`segments, this`trace, this`faults
      ensures var name := NewName(f, sequence, data, count);
              var base := if applied then old(segments)[name := File(data)] else old(segments);
              && (segments == base || (!ok && segments == base[SEGMENT_TEMP := File(data)]))
              && (applied ==> name !in old(segments))
              && (!ok ==> faults > old(faults) || name in old(segments))
      ensures trace == old(trace) + (if applied then [LinkSegment(data)] else [])
      ensures ok ==> applied
      ensures old(faults) <= faults
      ensures ok ==> faults == old(faults)
    {
      var name := NewName(f, sequence, data, count);
      applied := false;
      if name in segments { return false, false; }
      if * {
        if * { segments := segments[SEGMENT_TEMP := File(data)]; }
        faults := faults + 1;
        return false, false;
      }
      segments := segments[name := File(data)];
      trace := trace + [LinkSegment(data)];
      applied := true;
      if * {
        if * { segments := segments[SEGMENT_TEMP := File(data)]; }
        faults := faults + 1;
        return false, true;
      }
      ok := true;
    }

    /** The claim of `id`, if there is one and it is sound. */
    function LoadClaim(id: string): (r: Result<Option<nat>, StoreError>)
      reads this`ids
    {
      var key := f.IdKey(id);
      if key !in ids then Ok(None)
      else
        match ids[key]
        case ClaimData(version, stored, q) =>
          if version != 1 || stored == "" || q == 0 || stored != id then Err(IndexMismatch) else Ok(Some(q))
        case _ => Err(IndexMismatch)
    }

    method EnsureClaim(id: string, q: nat) returns (ok: bool, ghost applied: bool)
      requires id != "" && q > 0
      modifies this`ids, this`trace, this`faults
      ensures var key := f.IdKey(id);
              var base := if applied then old(ids)[key := ClaimData(1, id, q)] else old(ids);
              && (ids == base || (!ok && ids == base[CLAIM_TEMP := Garbage]))
              && (applied ==> key !in old(ids))
              && (ok ==> key in base && base[key] == ClaimData(1, id, q))
              && (!ok ==> faults > old(faults) || (key in old(ids) && old(ids)[key] != ClaimData(1, id, q)))
      ensures trace == old(trace) + (if applied then [LinkClaim(id, q)] else [])
      ensures old(faults) <= faults
      ensures ok ==> faults == old(faults)
    {
      applied := false;
      var claim := LoadClaim(id);
      if claim.Err? { return false, false; }
      if claim.value.Some? {
        ok := claim.value.value == q;
        return;
      }
      if * {
        if * { ids := ids[CLAIM_TEMP := Garbage]; }
        faults := faults + 1;
        return false, false;
      }
      ids := ids[f.IdKey(id) := ClaimData(1, id, q)];
      trace := trace + [LinkClaim(id, q)];
      applied := true;
      if * {
        if * { ids := ids[CLAIM_TEMP := Garbage]; }
        faults := faults + 1;
        return false, true;
      }
      ok := true;
    }

    method SaveStateFile(st: StoreState) returns (ok: bool, ghost applied: bool)
      modifies this`state, this`trace, this`faults
      ensures state == if applied then Present(st) else old(state)
      ensures trace == old(trace) + (if applied then [SaveState(st)] else [])
      ensures ok ==> applied
      ensures !ok ==> faults > old(faults) || old(state).NotAFile?
      ensures old(faults) <= faults
      ensures ok ==> faults == old(faults)
    {
      applied := false;
      if state.NotAFile? { return false, false; }
      if * { faults := faults + 1; return false, false; }
      state := Present(st);
      trace := trace + [SaveState(st)];
      applied := true;
      if * { faults := faults + 1; return false, true; }
      ok := true;
    }

    /** Ensuring the claim of `events[j]` once all earlier events have theirs. */
    method EnsureNext(events: seq<Event>, q: nat, j: nat, ghost t0: seq<Op>, ghost s0: Store, ghost s: Store)
      returns (ok: bool, ghost s': Store)
      requires FilesOk(f) && q > 0 && j < |events| && events[j].id != ""
      modifies this`ids, this`trace, this`faults
      ensures KeepsClaims(old(ids), ids)
      ensures ok ==> f.IdKey(events[j].id) in ids && ids[f.IdKey(events[j].id)] == ClaimData(1, events[j].id, q)
      ensures old(faults) <= faults
      ensures ok ==> faults == old(faults) && NoNewTemps(old(ids), ids)
      ensures old(Claiming(f, Disk(), t0, s0, trace, s, events, q, j)) ==>
              && Healthy(f, Disk(), s') && Progress(f, t0, s0, trace, s')
              && s'.segments == s.segments && s'.state == s.state && AtSegment(f, s', events, q, true)
              && (!ok ==> faults > old(faults) || !KeysInjective(f, Ids(Log(f, s0))))
    {
      hide FilesOk, Inv, ReconcilePlan, Log, KeysInjective, MissingClaims, IsTemp, IsClaimName, AtSegment, Progress,
          SegmentsShown, Claimed, NoNewTemps;
      var id := events[j].id;
      ghost var raw := Disk();
      ghost var applied;
      ok, applied := EnsureClaim(id, q);
      ClaimIsNoTemp(f, raw.ids, id, ClaimData(1, id, q));
      ClaimDirAfter(f, raw.ids, ids, s, id, q, applied);
      s' := if applied then Apply(f, s, LinkClaim(id, q)) else s;
      if Claiming(f, raw, t0, s0, old(trace), s, events, q, j) {
        if applied {
          ClaimAdvance(f, raw, Disk(), t0, s0, old(trace), s, events, q, j);
        } else {
          assert trace == old(trace);
          if !ok && faults == old(faults) && KeysInjective(f, Ids(Log(f, s0))) {
            ClaimNotRefused(f, raw, t0, s0, old(trace), s, events, q, j);
          }
        }
      }
    }

    /** Indexing one segment's events: no ID may repeat, and each must have its
        claim, which is linked first when the saved state does not cover it. */
    method IndexEvents(events: seq<Event>, q: nat, link: bool, seenIds: set<string>, ghost s0: Store)
      returns (ok: bool, seen: set<string>, ghost s: Store)
      requires FilesOk(f) && q > 0 && DistinctIds(events) && forall e <- events :: e.id != ""
      modifies this`ids, this`trace, this`faults
      ensures ok ==> EventsClaimed(f, ids, events, q) && seenIds !! Ids(events) && seen == seenIds + Ids(events)
      ensures KeepsClaims(old(ids), ids)
      ensures old(faults) <= faults
      ensures ok ==> faults == old(faults) && NoNewTemps(old(ids), ids)
      ensures old(Healthy(f, Disk(), s0)) && AtSegment(f, s0, events, q, link) ==>
              && Indexing(f, Disk(), old(trace), s0, trace, s, events, q, link)
              && (ok ==> 1 <= q <= |s.segments| && SegmentClaimed(f, s, q - 1))
              && (!ok ==> faults > old(faults) || !KeysInjective(f, Ids(Log(f, s0))) || !(seenIds !! Ids(events)))
    {
      hide FilesOk, Scanned, Healthy, Progress, AtSegment, DistinctIds, Ids, KeysInjective, KeepsClaims,
          EventsClaimed, Log, IsTemp;
      ghost var healthy := Healthy(f, Disk(), s0) && AtSegment(f, s0, events, q, link);
      s, seen := s0, seenIds;
      ScanStart(f, ids, events, q, seenIds);
      if healthy { ProgressStart(f, trace, s0, Disk()); }
      KeepsSelf(ids);
      var j := 0;
      while j < |events|
        invariant 0 <= j <= |events|
        invariant Scanned(f, ids, events, q, j, seenIds, seen)
        invariant KeepsClaims(old(ids), ids)
        invariant faults == old(faults) && NoNewTemps(old(ids), ids)
        invariant healthy ==> Indexing(f, Disk(), old(trace), s0, trace, s, events, q, link)
      {
        var id := events[j].id;
        if id in seen {
          ScanRepeats(f, ids, events, q, j, seenIds, seen);
          return false, seen, s;
        }
        ghost var dir := ids;
        if link {
          if healthy { StartClaiming(f, Disk(), old(trace), s0, trace, s, events, q, j, seenIds, seen); }
          var linked;
          linked, s := EnsureNext(events, q, j, old(trace), s0, s);
          KeepsTrans(old(ids), dir, ids);
          if !linked { return false, seen, s; }
        } else {
          if healthy { OldClaimHeld(f, Disk(), old(trace), s0, trace, s, events, q, j); }
          KeepsSelf(ids);
        }
        var claim := LoadClaim(id);
        if claim != Ok(Some(q)) { return false, seen, s; }
        ScanStep(f, dir, ids, events, q, j, seenIds, seen);
        seen := seen + {id};
        j := j + 1;
      }
      ScanDone(f, ids, events, q, seenIds, seen);
      if healthy { AllScanned(f, Disk(), old(trace), s0, trace, s, events, q, link); }
      ok := true;
    }

    /** One segment: its number, its size in the total, its content, and its
        events' IDs and claims. */
    method IndexSegment(list: seq<Listed>, i: nat, found: bool, last: nat, bytes: nat, seenIds: set<string>,
                        ghost t0: seq<Op>, ghost s0: Store, ghost before: Store)
      returns (ok: bool, seen: set<string>, ghost s: Store)
      requires FilesOk(f) && IsListing(segments, list) && i < |list|
      requires var all := Contents(segments, list);
               && Intact(f, list, all, i) && ClaimFilesUpto(f, ids, all, i)
               && bytes == BytesUpto(all, i) && seenIds == Ids(Upto(f, all, i))
      modifies this`ids, this`trace, this`faults
      ensures KeepsClaims(old(ids), ids)
      ensures old(faults) <= faults
      ensures ok ==> faults == old(faults) && NoNewTemps(old(ids), ids)
      ensures var all := Contents(segments, list);
              ok ==> && Intact(f, list, all, i + 1) && ClaimFilesUpto(f, ids, all, i + 1)
                     && seen == Ids(Upto(f, all, i + 1))
      ensures old(Scanning(f, Disk(), t0, s0, trace, before, i)) && StateSeen(s0, found, last) ==>
              && Scanning(f, Disk(), t0, s0, trace, s, if ok then i + 1 else i)
              && (!ok ==> faults > old(faults) || !KeysInjective(f, Ids(Log(f, s0))))
    {
      hide FilesOk, Healthy, Progress, DistinctIds, Ids, KeysInjective, KeepsClaims, ClaimFilesUpto, Log, Scanning,
          EventsClaimed,
        Intact, IsListing, Upto, BytesUpto, StateSeen, FieldsOf, EventsOf, IsTemp;
      ghost var all := Contents(segments, list);
      ghost var raw, t := Disk(), trace;
      ghost var healthy := Scanning(f, raw, t0, s0, t, before, i) && StateSeen(s0, found, last);
      ok, seen, s := false, seenIds, before;
      KeepsSelf(ids);
      if healthy {
        ScanningSegment(f, raw, t0, s0, t, before, list, i, found, last);
        HealthySegment(f, raw, before, list, i);
      }
      SegmentBytes(f, list, all, i);
      var events := CheckSegment(f, segments, list, i, bytes);
      if events.Err? { return; }
      ReadLaw(f, all[i]);
      ok, seen, s := IndexEvents(events.value, i + 1, !found || i + 1 > last, seen, before);
      ClaimFilesKept(f, raw.ids, ids, all, i);
      if healthy {
        ScanLog(f, raw, t0, s0, t, before, i);
        ScannedSegment(f, raw, Disk(), t0, s0, t, before, trace, s, i, !found || i + 1 > last);
      }
      if ok {
        IntactStep(f, list, all, i);
        ClaimFilesStep(f, ids, all, i);
      }
    }

    /** Every segment in turn. Returns the total bytes and events. */
    method IndexSegments(list: seq<Listed>, found: bool, last: nat, ghost s0: Store)
      returns (r: Result<(nat, nat), StoreError>, ghost s: Store)
      requires FilesOk(f) && IsListing(segments, list)
      modifies this`ids, this`trace, this`faults
      ensures KeepsClaims(old(ids), ids)
      ensures old(faults) <= faults
      ensures r.Ok? ==> faults == old(faults) && NoNewTemps(old(ids), ids)
      ensures r.Ok? ==>
              var all := Contents(segments, list);
              && Intact(f, list, all, |all|) && ClaimFilesUpto(f, ids, all, |all|)
              && r.value == (BytesUpto(all, |all|), |Upto(f, all, |all|)|)
      ensures old(Healthy(f, Disk(), s0)) && !NeedsImport(s0) && StateSeen(s0, found, last) ==>
              && Healthy(f, Disk(), s) && Progress(f, old(trace), s0, trace, s) && !NeedsImport(s)
              && s.segments == s0.segments && s.state == s0.state
              && (r.Ok? ==> ClaimedUpto(f, s, |s.segments|))
              && (r.Err? ==> faults > old(faults) || !KeysInjective(f, Ids(Log(f, s0))))
    {
      ghost var all := Contents(segments, list);
      hide FilesOk, Healthy, Progress, DistinctIds, Ids, KeysInjective, KeepsClaims, ClaimFilesUpto, Log, ClaimedUpto,
          ParseName, IsTemp, Upto, BytesUpto, Intact, IsListing, NeedsImport, StateSeen;
      ghost var healthy := Healthy(f, Disk(), s0) && !NeedsImport(s0) && StateSeen(s0, found, last);
      s := s0;
      if healthy { ScanningStart(f, Disk(), trace, s0); }
      IntactStart(f, list, all, ids);
      KeepsSelf(ids);
      var seen: set<string> := {};
      var total, count := 0, 0;
      var i := 0;
      while i < |list|
        invariant 0 <= i <= |list|
        invariant Intact(f, list, all, i) && ClaimFilesUpto(f, ids, all, i)
        invariant seen == Ids(Upto(f, all, i))
        invariant total == BytesUpto(all, i) && count == |Upto(f, all, i)|
        invariant KeepsClaims(old(ids), ids)
        invariant faults == old(faults) && NoNewTemps(old(ids), ids)
        invariant healthy ==> Scanning(f, Disk(), old(trace), s0, trace, s, i)
      {
        ghost var dir := ids;
        var ok;
        ok, seen, s := IndexSegment(list, i, found, last, total, seen, old(trace), s0, s);
        KeepsTrans(old(ids), dir, ids);
        if !ok { return Err(IndexMismatch), s; }
        IntactTotals(f, list, all, i);
        total := total + list[i].x.size;
        count := count + list[i].x.events;
        i := i + 1;
      }
      if healthy { ScanningDone(f, Disk(), old(trace), s0, trace, s, list); }
      r := Ok((total, count));
    }

    /** Listing the segments, after importing a pre-v1 ledger as segment 1. */
    method ListWithImport(oldLedger: Option<Bytes>, ghost s0: Store)
        returns (r: Result<seq<Listed>, StoreError>, ghost s: Store)
      requires FilesOk(f) && LegacyShown(legacy, oldLedger) && (oldLedger.Some? ==> f.Read(oldLedger.value).Some?)
      modifies this`segments, this`trace, this`faults
      ensures old(faults) <= faults
      ensures r.Ok? ==> faults == old(faults) && NoNewTemps(old(segments), segments)
      ensures r.Ok? ==> IsListing(segments, r.value)
      ensures !ImportsInto(old(segments), oldLedger) ==> segments == old(segments) && trace == old(trace)
      ensures ImportsInto(old(segments), oldLedger) && r.Ok? ==>
              && trace == old(trace) + [LinkSegment(oldLedger.value)]
              && var name := NewName(f, 1, oldLedger.value, |EventsOf(f, oldLedger.value)|);
                 segments == old(segments)[name := File(oldLedger.value)]
      ensures old(Healthy(f, Disk(), s0)) ==>
              && Healthy(f, Disk(), s) && Progress(f, old(trace), s0, trace, s) && s.state == s0.state
              && (r.Ok? ==> !NeedsImport(s)) && (r.Err? ==> faults > old(faults))
    {
      hide FilesOk, Inv, Progress, ParseName, IsTemp, ReconcilePlan, Log, NewName;
      s := s0;
      ghost var raw, t := Disk(), trace;
      ghost var healthy := Healthy(f, raw, s0);
      if healthy {
        ShownIsListable(f, segments, s0.segments);
        ProgressStart(f, trace, s0, raw);
      }
      r := ListSegments(segments);
      if r.Err? { return; }
      if healthy { ContentsAre(f, segments, s0.segments, r.value); }
      ListsNothing(segments, r.value);
      if r.value == [] && oldLedger.Some? && oldLedger.value != [] {
        ghost var applied;
        var ok;
        ok, applied := CommitSegment(1, oldLedger.value, |EventsOf(f, oldLedger.value)|);
        if healthy {
          ImportHappened(f, raw, Disk(), t, s0, applied);
          if applied { s := Apply(f, s0, LinkSegment(oldLedger.value)); }
        }
        SegmentIsNoTemp(f, raw.segments, 1, oldLedger.value, |EventsOf(f, oldLedger.value)|);
        if !ok { return Err(FileOperation), s; }
        if healthy { ShownIsListable(f, segments, s.segments); }
        r := ListSegments(segments);
      }
    }

    /** Replacing the saved totals when they changed. */
    method SaveIfChanged(found: bool, saved: StoreState, current: StoreState, ghost t0: seq<Op>, ghost s0: Store,
        ghost before: Store)
      returns (ok: bool, ghost s: Store)
      requires FilesOk(f) && state == (if found then Present(saved) else Missing)
      modifies this`state, this`trace, this`faults
      ensures old(faults) <= faults
      ensures ok ==> faults == old(faults)
      ensures ok ==> state == Present(current)
      ensures !ok ==> faults > old(faults)
      ensures old(Healthy(f, Disk(), before) && Progress(f, t0, s0, trace, before))
              && ReconcilePlan(f, before) == SavePlan(f, before) && current == Totals(f, before, |before.segments|) ==>
              && Healthy(f, Disk(), s) && Progress(f, t0, s0, trace, s)
              && (ok ==> ReconcilePlan(f, s) == [] && current == Totals(f, s, |s.segments|))
    {
      hide FilesOk, Inv, Progress, ReconcilePlan, Log, Totals, SegmentsShown, ClaimsShown;
      s, ok := before, true;
      if !found || saved != current {
        ghost var raw, applied := Disk(), false;
        ghost var healthy := Healthy(f, raw, before) && Progress(f, t0, s0, trace, before)
          && ReconcilePlan(f, before) == SavePlan(f, before) && current == Totals(f, before, |before.segments|);
        ok, applied := SaveStateFile(current);
        if healthy {
          SaveDecision(f, raw, before);
          SaveHappened(f, raw, Disk(), t0, s0, trace, before, current, applied);
          if applied { s := Apply(f, before, SaveState(current)); SameTotals(f, before, s); }
        }
      } else if Healthy(f, Disk(), before) {
        SaveDecision(f, Disk(), before);
      }
    }

    /** The last part of recovery: as many claims as events, and the new totals. */
    method FinishReconcile(list: seq<Listed>, found: bool, saved: StoreState, current: StoreState,
        oldLedger: Option<Bytes>,
                           ghost t0: seq<Op>, ghost s0: Store, ghost before: Store)
      returns (ok: bool, ghost s: Store, ghost t: Store)
      requires FilesOk(f) && IsListing(segments, list) && state == (if found then Present(saved) else Missing)
      requires LegacyShown(legacy, oldLedger) && (oldLedger.Some? ==> f.Read(oldLedger.value).Some?)
      requires var all := Contents(segments, list);
               && Intact(f, list, all, |all|) && ClaimFilesUpto(f, ids, all, |all|)
               && current == Totals(f, Store(all, map[], None, oldLedger), |all|)
      modifies this`state, this`trace, this`faults
      ensures old(faults) <= faults
      ensures ok ==> faults == old(faults)
      ensures t.segments == Contents(segments, list)
      ensures ok ==> Shows(f, Disk(), t) && Indexed(f, t) && t.state == Some(current)
      ensures old(AllIndexed(f, Disk(), t0, s0, trace, before)) ==>
              && Healthy(f, Disk(), s) && Progress(f, t0, s0, trace, s)
              && (ok ==> ReconcilePlan(f, s) == [] && current == Totals(f, s, |s.segments|))
              && (!ok ==> faults > old(faults))
    {
      hide FilesOk, Inv, Progress, ReconcilePlan, Log, Totals, ClaimsShown, ClaimFilesUpto, ClaimedUpto, Intact,
          IsTemp, IsClaimName, Indexed, Shows;
      s, t := before, Store(Contents(segments, list), ClaimMap(ids), Some(current), oldLedger);
      SameTotals(f, Store(t.segments, map[], None, oldLedger), t);
      TotalsCount(f, t);
      if AllIndexed(f, Disk(), t0, s0, trace, before) {
        ReadyToSave(f, Disk(), t0, s0, trace, before, list, t);
      }
      var count := CountClaims(ids);
      if count.Err? || count.value != current.eventCount { return false, s, t; }
      ok, s := SaveIfChanged(found, saved, current, t0, s0, before);
      if ok { ReconciledStore(f, Disk(), list, t); }
    }

    /** The saved totals, when they are there and make sense. */
    method LoadState() returns (r: Result<Option<StoreState>, StoreError>)
      ensures r.Ok? <==> state.Missing? || (state.Present? && SaneState(state.state))
      ensures r.Ok? ==> r.value == if state.Present? then Some(state.state) else None
    {
      if state.Corrupt? || state.NotAFile? { return Err(BadState); }
      if state.Missing? { return Ok(None); }
      var saved := state.state;
      if saved.version != 1 || saved.totalBytes < 0 || saved.totalBytes > MAX_LEDGER_BYTES || saved.eventCount < 0
          || saved.legacyBytes < 0 {
        return Err(BadState);
      }
      r := Ok(Some(saved));
    }

    /** The pre-v1 file, when it is there and readable. */
    method LoadLegacy() returns (r: Result<Option<Bytes>, StoreError>)
      ensures r.Ok? <==> (legacy.Some? ==> legacy.value.File? && f.Read(legacy.value.data).Some?)
      ensures r.Ok? ==> LegacyShown(legacy, r.value) && (r.value.Some? ==> f.Read(r.value.value).Some?)
    {
      if legacy.None? { return Ok(None); }
      if legacy.value.NotRegular? || f.read(legacy.value.data).None? { return Err(BadLegacy); }
      r := Ok(Some(legacy.value.data));
    }

    /** Recovery once the segments are listed. */
    method ReconcileListed(list: seq<Listed>, found: bool, saved: StoreState, oldLedger: Option<Bytes>,
                           ghost t0: seq<Op>, ghost s0: Store, ghost before: Store)
      returns (r: Result<StoreState, StoreError>, ghost s: Store, ghost t: Store)
      requires FilesOk(f) && IsListing(segments, list)
      requires if found then state == Present(saved) else state == Missing && saved == NO_STATE
      requires LegacyShown(legacy, oldLedger) && (oldLedger.Some? ==> f.Read(oldLedger.value).Some?)
      modifies this`ids, this`state, this`trace, this`faults
      ensures old(faults) <= faults
      ensures r.Ok? ==> faults == old(faults) && NoNewTemps(old(ids), ids)
      ensures r.Ok? ==> Shows(f, Disk(), t) && Indexed(f, t) && t.state == Some(r.value)
      ensures r.Ok? && oldLedger.Some? ==> LegacyAccepted(f, old(state), oldLedger.value, t.segments)
      ensures old(Healthy(f, Disk(), before) && Progress(f, t0, s0, trace, before)) && !NeedsImport(before) ==>
              && Healthy(f, Disk(), s) && Progress(f, t0, s0, trace, s)
              && (r.Ok? ==> ReconcilePlan(f, s) == [] && r.value == Totals(f, s, |s.segments|))
              && (r.Err? ==> faults > old(faults) || !KeysInjective(f, Ids(Log(f, s0))))
    {
      hide FilesOk, Inv, Progress, ParseName, IsTemp, ReconcilePlan, Log, KeysInjective, ClaimFilesUpto, ClaimedUpto,
          Indexed, Shows, Totals, Intact, LegacyAccepted, LegacyFields;
      s, t := before, before;
      ghost var healthy, t1 := Healthy(f, Disk(), before) && Progress(f, t0, s0, trace, before)
        && !NeedsImport(before), trace;
      if healthy { HealthyParts(f, Disk(), s); HealthyLegacy(f, Disk(), s, list, saved); }
      var fields := LegacyFields(f, saved, list, oldLedger);
      if fields.Err? { return Err(LegacyChanged), s, t; }
      var totals;
      totals, s := IndexSegments(list, found, saved.lastSequence, before);
      if healthy { Continued(f, t0, s0, t1, before, trace, s); }
      if totals.Err? { return Err(totals.error), s, t; }
      ghost var all := Contents(segments, list);
      if oldLedger.Some? { FieldsAccepted(f, old(state), saved, list, all, oldLedger.value); }
      var current := StoreState(1, |list|, totals.value.0, totals.value.1, fields.value.0, fields.value.1);
      TotalsAre(f, saved, list, oldLedger, all, current);
      var ok;
      ok, s, t := FinishReconcile(list, found, saved, current, oldLedger, t0, s0, s);
      r := if ok then Ok(current) else Err(FileOperation);
    }

    /** Recovery before every append. */
    method ReconcileEventStore(ghost s0: Store) returns (r: Result<StoreState, StoreError>, ghost s: Store,
        ghost t: Store)
      requires FilesOk(f)
      modifies this`segments, this`ids, this`state, this`trace, this`faults
      ensures old(faults) <= faults
      ensures r.Ok? ==> faults == old(faults)
      ensures r.Ok? ==> NoNewTemps(old(segments), segments) && NoNewTemps(old(ids), ids)
      ensures r.Ok? ==> Shows(f, Disk(), t) && Indexed(f, t) && t.state == Some(r.value)
      ensures r.Ok? ==> old(state).Missing? || (old(state).Present? && SaneState(old(state).state))
      ensures r.Ok? && legacy.Some? ==>
              legacy.value.File? && LegacyAccepted(f, old(state), legacy.value.data, t.segments)
      ensures old(Healthy(f, Disk(), s0)) ==>
              && Healthy(f, Disk(), s) && Progress(f, old(trace), s0, trace, s)
              && (r.Ok? ==> ReconcilePlan(f, s) == [] && r.value == Totals(f, s, |s.segments|))
              && (r.Err? ==> faults > old(faults) || !KeysInjective(f, Ids(Log(f, s0))))
    {
      hide FilesOk, Inv, Progress, ParseName, IsTemp, ReconcilePlan, Log, KeysInjective, Indexed, Shows, Totals,
          LegacyAccepted;
      s, t := s0, s0;
      ghost var t0 := trace;
      if Healthy(f, Disk(), s0) { HealthyParts(f, Disk(), s0); ProgressStart(f, trace, s0, Disk()); }
      var saved := LoadState();
      if saved.Err? { return Err(saved.error), s, t; }
      var oldLedger := LoadLegacy();
      if oldLedger.Err? { return Err(oldLedger.error), s, t; }
      var list;
      list, s := ListWithImport(oldLedger.value, s0);
      if list.Err? { return Err(list.error), s, t; }
      var known := if saved.value.Some? then saved.value.value else NO_STATE;
      r, s, t := ReconcileListed(list.value, saved.value.Some?, known, oldLedger.value, t0, s0, s);
    }

    /** Removing what killed writers left behind. */
    method CleanupTemps() returns (ok: bool)
      modifies this`segments, this`ids, this`faults
      ensures old(faults) <= faults
      ensures ok ==> faults == old(faults)
      ensures forall name <- old(segments) :: name in segments || old(segments)[name].File?
      ensures forall name <- old(ids) :: name in ids || !old(ids)[name].Irregular?
      ensures OnlyTempsGone(old(segments), segments) && OnlyTempsGone(old(ids), ids)
      ensures ok ==> forall name :: name in segments || name in ids ==> !IsTemp(name)
      ensures !ok ==> faults > old(faults) || !SegmentTempsRegular(old(segments)) || !ClaimTempsRegular(old(ids))
    {
      hide IsTemp;
      var fault, left;
      ok, fault, left := CleanDirectory(segments, (e: Entry) => e.File?);
      segments, faults := left, if fault then faults + 1 else faults;
      if !ok { return; }
      var claims;
      ok, fault, claims := CleanDirectory(ids, (e: ClaimEntry) => !e.Irregular?);
      ids, faults := claims, if fault then faults + 1 else faults;
    }

    /** No event of a new batch may have a claim already. */
    method CheckNewIds(events: seq<Event>) returns (r: Result<(), StoreError>)
      ensures r.Ok? <==> forall e <- events :: f.IdKey(e.id) !in ids
    {
      var i := 0;
      while i < |events|
        invariant 0 <= i <= |events|
        invariant forall k :: 0 <= k < i ==> f.IdKey(events[k].id) !in ids
      {
        var claim := LoadClaim(events[i].id);
        if claim.Err? { return Err(claim.error); }
        if claim.value.Some? { return Err(StoreError.DuplicateId); }
        i := i + 1;
      }
      r := Ok(());
    }

    /** Linking the claims of a batch that was just committed as segment `q`. */
    method LinkClaims(events: seq<Event>, q: nat, ghost s0: Store) returns (ok: bool, ghost s: Store)
      requires FilesOk(f) && q > 0 && forall e <- events :: e.id != ""
      modifies this`ids, this`trace, this`faults
      ensures old(faults) <= faults
      ensures ok ==> faults == old(faults) && NoNewTemps(old(ids), ids)
      ensures old(Healthy(f, Disk(), s0)) && AtSegment(f, s0, events, q, true) && |s0.segments| == q ==>
              && Healthy(f, Disk(), s) && Progress(f, old(trace), s0, trace, s) && s.segments == s0.segments
              && (ok ==> OwnClaims(f, Disk(), old(trace), s0, trace, s, events, q, |events|))
              && (!ok ==> faults > old(faults) || !KeysInjective(f, Ids(Log(f, s0))))
    {
      hide FilesOk, Healthy, Progress, Ids, KeysInjective, KeepsClaims, Log, AtSegment, Claiming, Claimed,
          EventsClaimed, IsTemp;
      ghost var healthy := Healthy(f, Disk(), s0) && AtSegment(f, s0, events, q, true) && |s0.segments| == q;
      s := s0;
      if healthy { OwnClaimsStart(f, Disk(), trace, s0, events, q); }
      var j := 0;
      while j < |events|
        invariant 0 <= j <= |events|
        invariant faults == old(faults) && NoNewTemps(old(ids), ids)
        invariant healthy ==> OwnClaims(f, Disk(), old(trace), s0, trace, s, events, q, j)
      {
        ghost var raw, t, before := Disk(), trace, s;
        if healthy { OwnClaimsHeld(f, raw, old(trace), s0, t, before, events, q, j); }
        assert events[j] in events;
        ok, s := EnsureNext(events, q, j, old(trace), s0, s);
        if !ok { return; }
        if healthy { OwnClaimLinked(f, raw, Disk(), old(trace), s0, t, before, trace, s, events, q, j); }
        j := j + 1;
      }
      ok := true;
    }

    /** Indexing the batch that was just committed: its claims, then the new totals. */
    method IndexBatch(events: seq<Event>, st: StoreState, ghost t0: seq<Op>, ghost s0: Store, ghost s1: Store)
      returns (ok: bool, ghost s: Store)
      requires FilesOk(f) && st.lastSequence > 0 && forall e <- events :: e.id != ""
      modifies this`ids, this`state, this`trace, this`faults
      ensures old(faults) <= faults
      ensures ok ==> faults == old(faults) && NoNewTemps(old(ids), ids)
      ensures old(Healthy(f, Disk(), s1) && JustCommitted(f, t0, s0, trace, s1, events, st)) ==>
              && Healthy(f, Disk(), s) && Appended(f, t0, s0, trace, s, events)
              && (ok ==> ReconcilePlan(f, s) == [])
              && (!ok ==> faults > old(faults) || !KeysInjective(f, Ids(Log(f, s0)) + Ids(events)))
    {
      hide FilesOk, Progress, Healthy, Appended, ReconcilePlan, Log, KeysInjective, Ids, Totals, AtSegment, OwnClaims,
          IsTemp;
      ghost var healthy := Healthy(f, Disk(), s1) && JustCommitted(f, t0, s0, trace, s1, events, st);
      ghost var t1 := trace;
      if healthy { AppendedIds(f, t0, s0, t1, s1, events); }
      ok, s := LinkClaims(events, st.lastSequence, s1);
      if healthy { AppendedProgress(f, t0, s0, t1, s1, trace, s, events); }
      if !ok { return; }
      ghost var raw, s2, applied := Disk(), s, false;
      if healthy { OnlyTotalsLeft(f, raw, t1, s1, trace, s2, events, st.lastSequence); }
      ok, applied := SaveStateFile(st);
      if healthy {
        HealthyParts(f, raw, s2);
        SaveHappened(f, raw, Disk(), t1, s1, trace, s2, st, applied);
        if applied { s := Apply(f, s2, SaveState(st)); }
        AppendedProgress(f, t0, s0, t1, s1, trace, s, events);
      }
    }

    /** Committing an accepted batch as the next segment, and indexing it. */
    method CommitBatch(events: seq<Event>, data: Bytes, totals: StoreState, ghost t0: seq<Op>, ghost s0: Store,
        ghost before: Store)
      returns (ok: bool, ghost s: Store)
      requires FilesOk(f) && events != [] && f.Encode(events) == Some(data)
      modifies this`segments, this`ids, this`state, this`trace, this`faults
      ensures old(faults) <= faults
      ensures ok ==> faults == old(faults)
      ensures ok ==> NoNewTemps(old(segments), segments) && NoNewTemps(old(ids), ids)
      ensures old(MayCommit(f, Disk(), t0, s0, trace, before, events, data))
              && totals == Totals(f, before, |before.segments|) ==>
              && Healthy(f, Disk(), s)
              && (Appended(f, t0, s0, trace, s, events) || (!ok && Progress(f, t0, s0, trace, s)))
              && (ok ==> Appended(f, t0, s0, trace, s, events) && ReconcilePlan(f, s) == [])
              && (!ok ==> faults > old(faults) || !KeysInjective(f, Ids(Log(f, s0)) + Ids(events)))
    {
      hide FilesOk, Progress, Healthy, Appended, ReconcilePlan, Log, KeysInjective, Ids, Accepts, Totals, NewName,
          JustCommitted, MayCommit, IsTemp;
      EncodedReads(f, events);
      ghost var raw, t, healthy := Disk(), trace,
        MayCommit(f, Disk(), t0, s0, trace, before, events, data) && totals == Totals(f, before, |before.segments|);
      ghost var applied;
      ok, applied := CommitSegment(totals.lastSequence + 1, data, |events|);
      SegmentIsNoTemp(f, raw.segments, totals.lastSequence + 1, data, |events|);
      s := if applied then Apply(f, before, LinkSegment(data)) else before;
      var st := GrownBy(totals, events, data);
      if healthy {
        BatchCommitted(f, raw, Disk(), t0, s0, t, before, trace, events, data, totals, applied);
        if applied { JustCommittedAppended(f, t0, s0, trace, s, events, st); }
      }
      if ok { ok, s := IndexBatch(events, st, t0, s0, s); }
    }

    /** Appending a batch of events. */
    method AppendBatch(events: seq<Event>, ghost s0: Store) returns (r: Result<(), StoreError>, ghost s: Store)
      requires FilesOk(f)
      modifies this`segments, this`ids, this`state, this`trace, this`faults
      ensures old(faults) <= faults
      ensures r.Ok? ==> faults == old(faults)
      ensures r.Ok? && events != [] ==>
              forall name :: name in segments || name in ids ==> !IsTemp(name)
      ensures old(Healthy(f, Disk(), s0)) ==>
              && Healthy(f, Disk(), s)
              && (if Committed(f, old(trace), s0, trace, events)
                  then Appended(f, old(trace), s0, trace, s, events)
                  else Progress(f, old(trace), s0, trace, s))
              && (r.Ok? && events != [] ==> Appended(f, old(trace), s0, trace, s, events) && ReconcilePlan(f, s) == [])
              && (r.Ok? && events != [] ==> f.Encode(events).Some? && Fits(f, s0, events))
              && (r.Err? ==> faults > old(faults) || f.Encode(events).None? || !Fits(f, s0, events)
                             || !KeysInjective(f, Ids(Log(f, s0)) + Ids(events)))
    {
      hide FilesOk, Progress, Healthy, Appended, ReconcilePlan, Log, KeysInjective, Ids, Accepts, Totals,
          JustCommitted, Fits, Indexed, Shows, MayCommit, IsTemp;
      ghost var t0, healthy := trace, Healthy(f, Disk(), s0);
      s := s0;
      if healthy {
        ProgressStart(f, trace, s0, Disk());
        NotCommitted(f, t0, s0, trace, s0, events);
        FewerKeysIf(f, Ids(Log(f, s0)), Ids(events));
      }
      if events == [] { return Ok(()), s; }
      var data := f.Encode(events);
      if data.None? { return Err(BadBatch), s; }
      ghost var raw := Disk();
      var clean := CleanupTemps();
      if healthy { Cleaned(f, raw, Disk(), s0); HealthyParts(f, raw, s0); }
      if !clean { return Err(UnsafeTemp), s; }
      var totals;
      ghost var seen;
      totals, s, seen := ReconcileEventStore(s0);
      if healthy { NotCommitted(f, t0, s0, trace, s, events); }
      if totals.Err? { return Err(totals.error), s; }
      if healthy { AcceptedWhenFits(f, Disk(), t0, s0, trace, s, events, data.value, totals.value); }
      if totals.value.totalBytes + |data.value| > MAX_LEDGER_BYTES { return Err(LedgerFull), s; }
      var unclaimed := CheckNewIds(events);
      if unclaimed.Err? { return Err(unclaimed.error), s; }
      var ok;
      ok, s := CommitBatch(events, data.value, totals.value, t0, s0, s);
      if healthy {
        if Appended(f, t0, s0, trace, s, events) {
          AppendedCommitted(f, t0, s0, trace, s, events);
        } else {
          NotCommitted(f, t0, s0, trace, s, events);
        }
      }
      r := if ok then Ok(()) else Err(FileOperation);
    }
  }
}
