/** The store as directories of named entries, and what it means for them to
    show a store of the protocol. */
module Directories {
  import opened Model
  import opened Jsonl
  import opened SegmentNames
  import opened LedgerProtocol

  datatype Entry = File(data: Bytes) | NotRegular

  datatype ClaimEntry = ClaimData(version: int, id: string, sequence: nat) | Garbage | Irregular

  /** A saved state that does not parse is `Corrupt`; `NotAFile` is anything but a regular file. */
  datatype StateFile = Missing | Present(state: StoreState) | Corrupt | NotAFile

  datatype Listed = Listed(name: string, x: Fields)

  datatype Raw = Raw(
    segments: map<string, Entry>,
    ids: map<string, ClaimEntry>,
    state: StateFile,
    legacy: Option<Entry>)

  const SEGMENT_TEMP := ".event-segment-0.tmp"
  const CLAIM_TEMP := ".event-id-0.tmp"

  // ---------- Listings ----------

  predicate EntryOk(dir: map<string, Entry>, name: string)
    requires name in dir
  {
    ParseName(name).Some? && dir[name].File? && |dir[name].data| == ParseName(name).value.size
  }

  predicate Listable(dir: map<string, Entry>) {
    forall name <- dir :: IsTemp(name) || EntryOk(dir, name)
  }

  predicate ListedFrom(dir: map<string, Entry>, l: Listed) {
    l.name in dir && !IsTemp(l.name) && EntryOk(dir, l.name) && ParseName(l.name) == Some(l.x)
  }

  ghost predicate Sorted(list: seq<Listed>) {
    forall i, j :: 0 <= i < j < |list| ==> list[i].x.sequence <= list[j].x.sequence
  }

  ghost predicate DistinctNames(list: seq<Listed>) {
    forall i, j :: 0 <= i < j < |list| ==> list[i].name != list[j].name
  }

  ghost function Names(list: seq<Listed>): set<string> {
    set l <- list :: l.name
  }

  ghost function CommittedNames(dir: map<string, Entry>): set<string> {
    set name <- dir | !IsTemp(name)
  }

  /** `list` names every committed segment of the directory once, by sequence number. */
  ghost predicate IsListing(dir: map<string, Entry>, list: seq<Listed>) {
    && (forall i :: 0 <= i < |list| ==> ListedFrom(dir, list[i]))
    && Sorted(list) && DistinctNames(list)
    && Names(list) == CommittedNames(dir)
  }

  predicate Contiguous(list: seq<Listed>) {
    forall i :: 0 <= i < |list| ==> list[i].x.sequence == i + 1
  }

  /** A sorted list without repetitions of the elements numbered 1..n is in order. */
  lemma {:induction false} SortedIsInOrder(a: seq<Listed>, b: seq<Listed>)
    requires Contiguous(a) && Sorted(b) && DistinctNames(b)
    requires forall l :: l in b <==> l in a
    ensures b == a
  {
    if a == [] {
      assert forall i :: 0 <= i < |b| ==> b[i] in b;
    } else {
      var n, m := |a| - 1, |b| - 1;
      assert a[n] in b;
      LargestLast(a, b);
      forall l ensures l in b[..m] <==> l in a[..n] {
        LastOnce(b, l);
        ContiguousLastOnce(a, l);
      }
      SortedIsInOrder(a[..n], b[..m]);
      assert a == a[..n] + [a[n]] && b == b[..m] + [b[m]];
    }
  }

  lemma LargestLast(a: seq<Listed>, b: seq<Listed>)
    requires Contiguous(a) && Sorted(b) && a != [] && b != []
    requires forall l :: l in b <==> l in a
    ensures b[|b| - 1] == a[|a| - 1]
  {
    var last := b[|b| - 1];
    assert last in b && a[|a| - 1] in a;
    var i :| 0 <= i < |a| && a[i] == last;
    var k :| 0 <= k < |b| && b[k] == a[|a| - 1];
  }

  lemma ContiguousLastOnce(a: seq<Listed>, l: Listed)
    requires Contiguous(a) && a != []
    ensures l in a[..|a| - 1] <==> l in a && l != a[|a| - 1]
  {
    var n := |a| - 1;
    if l in a && l != a[n] {
      var k :| 0 <= k < |a| && a[k] == l;
      assert a[..n][k] == l;
    }
    if l in a[..n] {
      var k :| 0 <= k < n && a[..n][k] == l;
      assert a[k].x.sequence == k + 1;
    }
  }

  lemma LastOnce(b: seq<Listed>, l: Listed)
    requires DistinctNames(b) && b != []
    ensures l in b[..|b| - 1] <==> l in b && l != b[|b| - 1]
  {
    var m := |b| - 1;
    if l in b && l != b[m] {
      var k :| 0 <= k < |b| && b[k] == l;
      assert b[..m][k] == l;
    }
    if l in b[..m] {
      var k :| 0 <= k < m && b[..m][k] == l;
      assert b[k] == l && b[k].name != b[m].name;
    }
  }

  /** A directory whose sequence numbers are 1..n has only one listing. */
  lemma ContiguousUnique(dir: map<string, Entry>, a: seq<Listed>, b: seq<Listed>)
    requires IsListing(dir, a) && IsListing(dir, b) && Contiguous(a)
    ensures b == a
  {
    forall l ensures l in b <==> l in a {
      SameElements(dir, a, b, l);
      SameElements(dir, b, a, l);
    }
    SortedIsInOrder(a, b);
  }

  lemma SameElements(dir: map<string, Entry>, a: seq<Listed>, b: seq<Listed>, l: Listed)
    requires IsListing(dir, a) && IsListing(dir, b)
    ensures l in a ==> l in b
  {
    hide ParseName, IsTemp;
    if l in a {
      assert l.name in Names(a) && l.name in Names(b);
      var k :| k in b && k.name == l.name;
      assert ListedFrom(dir, k) && ListedFrom(dir, l);
    }
  }

  // ---------- What a directory shows ----------

  function FieldsOf(f: Files, i: nat, data: Bytes): Fields {
    Fields(i + 1, |EventsOf(f, data)|, |data|, f.Digest(data))
  }

  /** The listed files hold exactly these segments. */
  ghost predicate Holds(f: Files, dir: map<string, Entry>, list: seq<Listed>, segments: seq<Bytes>) {
    && IsListing(dir, list)
    && |list| == |segments|
    && forall i :: 0 <= i < |segments| ==>
         list[i].x == FieldsOf(f, i, segments[i]) && dir[list[i].name] == File(segments[i])
  }

  ghost predicate SegmentsShown(f: Files, dir: map<string, Entry>, segments: seq<Bytes>) {
    exists list :: Holds(f, dir, list, segments)
  }

  ghost predicate ClaimsShown(dir: map<string, ClaimEntry>, claims: map<string, Claim>) {
    && (forall k <- claims :: k in dir && dir[k] == ClaimData(1, claims[k].id, claims[k].sequence))
    && (forall k <- claims :: !IsTemp(k) && IsClaimName(k))
    && (forall name <- dir :: name in claims || IsTemp(name))
  }

  ghost predicate StateShown(file: StateFile, state: Option<StoreState>) {
    file == match state case None => Missing case Some(st) => Present(st)
  }

  ghost predicate LegacyShown(file: Option<Entry>, legacy: Option<Bytes>) {
    file == match legacy case None => None case Some(raw) => Some(File(raw))
  }

  ghost predicate Shows(f: Files, raw: Raw, s: Store) {
    && SegmentsShown(f, raw.segments, s.segments)
    && ClaimsShown(raw.ids, s.claims)
    && StateShown(raw.state, s.state)
    && LegacyShown(raw.legacy, s.legacy)
  }

  /** The listing a reader or writer computes is the one the store has. */
  lemma ListingIs(f: Files, dir: map<string, Entry>, segments: seq<Bytes>, list: seq<Listed>)
    requires SegmentsShown(f, dir, segments) && IsListing(dir, list)
    ensures Holds(f, dir, list, segments)
  {
    var own: seq<Listed> :| Holds(f, dir, own, segments);
    assert Contiguous(own);
    ContiguousUnique(dir, own, list);
  }

  lemma ShownIsListable(f: Files, dir: map<string, Entry>, segments: seq<Bytes>)
    requires SegmentsShown(f, dir, segments)
    ensures Listable(dir)
  {
    var list: seq<Listed> :| Holds(f, dir, list, segments);
    forall name <- dir ensures IsTemp(name) || EntryOk(dir, name) {
      if !IsTemp(name) {
        assert name in CommittedNames(dir) && name in Names(list);
        var i :| 0 <= i < |list| && list[i].name == name;
        assert ListedFrom(dir, list[i]);
      }
    }
  }

  // ---------- Single operations on directories ----------

  /** A leftover temporary file is invisible. */
  lemma TempInvisible(f: Files, dir: map<string, Entry>, name: string, entry: Entry, segments: seq<Bytes>)
    requires IsTemp(name) && SegmentsShown(f, dir, segments)
    ensures SegmentsShown(f, dir[name := entry], segments)
  {
    hide ParseName;
    var list: seq<Listed> :| Holds(f, dir, list, segments);
    var dir' := dir[name := entry];
    assert CommittedNames(dir') == CommittedNames(dir);
    assert forall i :: 0 <= i < |list| && ListedFrom(dir, list[i]) ==> ListedFrom(dir', list[i]);
    assert Holds(f, dir', list, segments);
  }

  ghost predicate LinkableSegment(f: Files, i: nat, data: Bytes) {
    Formattable(FieldsOf(f, i, data))
  }

  function NameOf(f: Files, i: nat, data: Bytes): string {
    Format(FieldsOf(f, i, data))
  }

  /** The name of the next segment is free. */
  lemma NextNameFree(f: Files, dir: map<string, Entry>, segments: seq<Bytes>, data: Bytes)
    requires SegmentsShown(f, dir, segments) && LinkableSegment(f, |segments|, data)
    ensures NameOf(f, |segments|, data) !in dir
  {
    hide ParseName, Format, IsTemp, EventsOf, Formattable, Sorted, DistinctNames;
    var list: seq<Listed> :| Holds(f, dir, list, segments);
    var x := FieldsOf(f, |segments|, data);
    var name := NameOf(f, |segments|, data);
    NameRoundTrip(x);
    NameNotTemp(x);
    assert name == Format(x);
    forall other <- CommittedNames(dir) ensures other != name {
      assert other in Names(list);
      var l :| l in list && l.name == other;
      var i :| 0 <= i < |list| && list[i] == l;
      assert ListedFrom(dir, list[i]) && list[i].x == FieldsOf(f, i, segments[i]);
      assert ParseName(other).value.sequence != ParseName(name).value.sequence;
    }
    assert name !in CommittedNames(dir);
  }

  lemma SegmentLinked(f: Files, dir: map<string, Entry>, segments: seq<Bytes>, data: Bytes)
    requires SegmentsShown(f, dir, segments) && LinkableSegment(f, |segments|, data)
    ensures SegmentsShown(f, dir[NameOf(f, |segments|, data) := File(data)], segments + [data])
  {
    hide ParseName, Format, IsTemp, EventsOf, Formattable;
    var list: seq<Listed> :| Holds(f, dir, list, segments);
    var x := FieldsOf(f, |segments|, data);
    var name := NameOf(f, |segments|, data);
    NextNameFree(f, dir, segments, data);
    NameRoundTrip(x);
    NameNotTemp(x);
    var dir' := dir[name := File(data)];
    var list' := list + [Listed(name, x)];
    forall i | 0 <= i < |list'| ensures ListedFrom(dir', list'[i]) {
      if i < |list| { assert ListedFrom(dir, list[i]); }
    }
    NamesAppend(list, Listed(name, x));
    assert CommittedNames(dir') == CommittedNames(dir) + {name};
    assert Sorted(list');
    assert DistinctNames(list') by {
      assert forall i :: 0 <= i < |list| ==> ListedFrom(dir, list[i]) && list[i].name != name;
    }
    assert Holds(f, dir', list', segments + [data]);
  }

  lemma NamesAppend(list: seq<Listed>, l: Listed)
    ensures Names(list + [l]) == Names(list) + {l.name}
  {
    forall x | x in Names(list) + {l.name} ensures x in Names(list + [l]) {
      if x == l.name {
        assert l in list + [l];
      } else {
        var y :| y in list && y.name == x;
        assert y in list + [l];
      }
    }
  }

  /** A committed segment of a valid store always has a name that parses back. */
  lemma SegmentLinkable(f: Files, segments: seq<Bytes>, data: Bytes)
    requires FilesOk(f) && data != [] && f.Read(data).Some?
    requires forall i :: 0 <= i < |segments| ==> segments[i] != []
    requires BytesUpto(segments, |segments|) <= MAX_LEDGER_BYTES
    ensures LinkableSegment(f, |segments|, data)
  {
    FewerThanBytes(segments, |segments|);
    assert ReadOk(data, f.Read(data).value);
  }

  lemma {:induction false} FewerThanBytes(segments: seq<Bytes>, n: nat)
    requires n <= |segments| && forall i :: 0 <= i < |segments| ==> segments[i] != []
    ensures n <= BytesUpto(segments, n)
  {
    if n > 0 { FewerThanBytes(segments, n - 1); }
  }

  // ---------- Counting claims ----------

  ghost function ClaimNames(dir: map<string, ClaimEntry>): set<string> {
    set name <- dir | !IsTemp(name)
  }

  ghost function Keys(f: Files, ids: set<string>): set<string> {
    set x <- ids :: f.IdKey(x)
  }

  ghost predicate Indexes(f: Files, dir: map<string, ClaimEntry>, x: string) {
    f.IdKey(x) in dir && dir[f.IdKey(x)].ClaimData? && dir[f.IdKey(x)].id == x
  }

  /** Injection: different indexed IDs have different claim files, because each
      file stores the one ID it is for. */
  lemma {:induction false} KeysCount(f: Files, dir: map<string, ClaimEntry>, ids: set<string>)
    requires forall x <- ids :: Indexes(f, dir, x)
    ensures |Keys(f, ids)| == |ids|
    decreases |ids|
  {
    if ids != {} {
      var x :| x in ids;
      KeysCount(f, dir, ids - {x});
      assert Keys(f, ids) == Keys(f, ids - {x}) + {f.IdKey(x)};
      forall k <- Keys(f, ids - {x}) ensures k != f.IdKey(x) {
        var y :| y in ids - {x} && f.IdKey(y) == k;
        assert Indexes(f, dir, y) && Indexes(f, dir, x);
      }
    } else {
      assert Keys(f, ids) == {};
    }
  }

  /** Counting: when there are as many claim files as indexed IDs, no claim
      file is anything else. */
  lemma CountIsExact(f: Files, dir: map<string, ClaimEntry>, ids: set<string>)
    requires FilesOk(f)
    requires forall x <- ids :: Indexes(f, dir, x)
    requires |ClaimNames(dir)| == |ids|
    ensures ClaimNames(dir) == Keys(f, ids)
  {
    KeysCount(f, dir, ids);
    forall k <- Keys(f, ids) ensures k in ClaimNames(dir) {
      var x :| x in ids && f.IdKey(x) == k;
      assert Indexes(f, dir, x);
      ClaimNotTemp(k);
    }
    SubsetSameSize(Keys(f, ids), ClaimNames(dir));
  }

  lemma SubsetSameSize(a: set<string>, b: set<string>)
    requires a <= b && |a| == |b|
    ensures a == b
  {
    assert |b - a| == |b| - |a|;
    assert b == a + (b - a);
  }
}
