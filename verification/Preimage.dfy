/** The byte stream a fingerprint hashes (internal/evidence/fingerprint.go):
    length-prefixed fields for the patterns, then for each relevant file. */
module Preimage {
  import opened Model
  import opened SegmentNames

  datatype Name =
    | PatternName | PathName | KindName | IndexName | TargetName | TargetExecutable | TargetDigest
    | ExecutableName | DigestName

  datatype Field = Field(name: Name, value: Bytes)

  datatype Kind =
    | Gone
    | Symlink(target: Bytes, targetExecutable: bool, targetDigest: string)
    | File(executable: bool, digest: string)
    | Other(mode: string)

  /** What the fingerprint sees of one path. `indexExecutable` is the executable
      bit in the Git index, for paths that have one. */
  datatype Record = Record(path: Bytes, indexExecutable: Option<bool>, kind: Kind)

  // ---------- One field ----------

  /** `%d` of a length. */
  function Decimal(n: nat): (s: string)
    ensures s != []
    ensures forall i :: 0 <= i < |s| ==> '0' <= s[i] <= '9'
  {
    if n < 10 then [DigitChar(n)] else Decimal(n / 10) + [DigitChar(n % 10)]
  }

  lemma {:induction false} DecimalValue(n: nat)
    ensures Value(10, Decimal(n)) == n
  {
    hide Value;
    if n < 10 {
      assert [] + [DigitChar(n)] == [DigitChar(n)];
      ValueAppend(10, [], DigitChar(n));
      ValueOfNothing();
    } else {
      DecimalValue(n / 10);
      ValueAppend(10, Decimal(n / 10), DigitChar(n % 10));
    }
  }

  lemma ValueOfNothing()
    ensures Value(10, []) == 0
  {
  }

  function Text(name: Name): string {
    match name
    case PatternName => "pattern"
    case PathName => "path"
    case KindName => "kind"
    case IndexName => "git-index-executable"
    case TargetName => "symlink"
    case TargetExecutable => "target-executable"
    case TargetDigest => "symlink-target-sha256"
    case ExecutableName => "executable"
    case DigestName => "sha256"
  }

  function ReadName(s: string): Option<Name> {
    if s == Text(PatternName) then Some(PatternName)
    else if s == Text(PathName) then Some(PathName)
    else if s == Text(KindName) then Some(KindName)
    else if s == Text(IndexName) then Some(IndexName)
    else if s == Text(TargetName) then Some(TargetName)
    else if s == Text(TargetExecutable) then Some(TargetExecutable)
    else if s == Text(TargetDigest) then Some(TargetDigest)
    else if s == Text(ExecutableName) then Some(ExecutableName)
    else if s == Text(DigestName) then Some(DigestName)
    else None
  }

  /** Length and first letter tell the names apart. */
  lemma Shapes(name: Name)
    ensures |Text(name)| == match name
      case PatternName => 7 case PathName => 4 case KindName => 4 case IndexName => 20 case TargetName => 7
      case TargetExecutable => 17 case TargetDigest => 21 case ExecutableName => 10 case DigestName => 6
    ensures Text(name)[0] == match name
      case PatternName => 'p' case PathName => 'p' case KindName => 'k' case IndexName => 'g' case TargetName => 's'
      case TargetExecutable => 't' case TargetDigest => 's' case ExecutableName => 'e' case DigestName => 's'
  {
  }

  lemma NameRoundTrips(name: Name)
    ensures ReadName(Text(name)) == Some(name)
  {
    hide Text;
    forall n: Name { Shapes(n); }
  }

  lemma NoColon(name: Name)
    ensures ':' !in Text(name)
  {
    match name
    case PatternName =>
    case PathName =>
    case KindName =>
    case IndexName =>
    case TargetName =>
    case TargetExecutable =>
    case TargetDigest =>
    case ExecutableName =>
    case DigestName =>
  }

  function WriteField(f: Field): Bytes {
    Text(f.name) + [':'] + (Decimal(|f.value|) + [':'] + (f.value + ['\n']))
  }

  /** `writeField`: the name, the length, and the value on a line. */
  method WriteTo(stream: Bytes, name: string, ghost field: Name, value: Bytes) returns (r: Bytes)
    requires name == Text(field)
    ensures r == stream + WriteField(Field(field, value))
  {
    hide Text;
    r := stream + name + ":" + Decimal(|value|) + ":" + value + "\n";
    assert r == stream + (name + [':'] + (Decimal(|value|) + [':'] + (value + ['\n'])));
  }

  /** The first `sep` in `s`, or its length. */
  function IndexOf(s: Bytes, sep: char): (k: nat)
    ensures k <= |s|
    ensures k < |s| ==> s[k] == sep
    ensures forall i :: 0 <= i < k ==> s[i] != sep
  {
    if s == [] || s[0] == sep then 0 else 1 + IndexOf(s[1..], sep)
  }

  function ReadField(s: Bytes): (r: Option<(Field, Bytes)>)
    ensures r.Some? ==> |r.value.1| < |s|
  {
    var i := IndexOf(s, ':');
    if i == |s| then None
    else
      var t := s[i + 1..];
      var j := IndexOf(t, ':');
      if j == |t| then None
      else
        var n, u := Value(10, t[..j]), t[j + 1..];
        if |u| <= n || u[n] != '\n' || ReadName(s[..i]).None? then None
        else Some((Field(ReadName(s[..i]).value, u[..n]), u[n + 1..]))
  }

  lemma CutAt(a: Bytes, sep: char, b: Bytes)
    requires sep !in a
    ensures var s := a + [sep] + b; IndexOf(s, sep) == |a| < |s| && s[..|a|] == a && s[|a| + 1..] == b
  {
    var s := a + [sep] + b;
    assert s[|a|] == sep && forall i :: 0 <= i < |a| ==> s[i] == a[i];
  }

  lemma FieldRoundTrip(f: Field, rest: Bytes)
    ensures ReadField(WriteField(f) + rest) == Some((f, rest))
  {
    hide IndexOf, Value, Decimal, Text, ReadName;
    var u := f.value + ['\n'] + rest;
    var digits := Decimal(|f.value|);
    var t := digits + [':'] + u;
    var s := WriteField(f) + rest;
    assert s == Text(f.name) + [':'] + t;
    NoColon(f.name);
    NameRoundTrips(f.name);
    assert forall i :: 0 <= i < |digits| ==> digits[i] != ':';
    CutAt(Text(f.name), ':', t);
    CutAt(digits, ':', u);
    DecimalValue(|f.value|);
    assert u[|f.value|] == '\n' && u[..|f.value|] == f.value && u[|f.value| + 1..] == rest;
  }

  // ---------- All fields ----------

  function WriteFields(fields: seq<Field>): Bytes {
    if fields == [] then [] else WriteField(fields[0]) + WriteFields(fields[1..])
  }

  function ReadFields(s: Bytes): Option<seq<Field>>
    decreases |s|
  {
    if s == [] then Some([])
    else
      var head := ReadField(s);
      if head.None? then None
      else
        var tail := ReadFields(head.value.1);
        if tail.None? then None else Some([head.value.0] + tail.value)
  }

  lemma FieldNotEmpty(f: Field)
    ensures WriteField(f) != []
  {
  }

  lemma {:induction false} FieldsRoundTrip(fields: seq<Field>)
    ensures ReadFields(WriteFields(fields)) == Some(fields)
  {
    if fields != [] {
      hide ReadField, WriteField;
      FieldRoundTrip(fields[0], WriteFields(fields[1..]));
      FieldsRoundTrip(fields[1..]);
      FieldNotEmpty(fields[0]);
      assert fields == [fields[0]] + fields[1..];
    }
  }

  // ---------- Patterns and records ----------

  function Bool(b: bool): string { if b then "true" else "false" }

  function KindFields(kind: Kind): seq<Field> {
    match kind
    case Gone => [Field(KindName, "missing")]
    case Symlink(target, executable, digest) =>
      [Field(TargetName, target), Field(TargetExecutable, Bool(executable)), Field(TargetDigest, digest)]
    case File(executable, digest) => [Field(ExecutableName, Bool(executable)), Field(DigestName, digest)]
    case Other(mode) => [Field(KindName, mode)]
  }

  function IndexFields(index: Option<bool>): seq<Field> {
    if index.Some? then [Field(IndexName, Bool(index.value))] else []
  }

  function RecordFields(r: Record): seq<Field> {
    [Field(PathName, r.path)] + (IndexFields(r.indexExecutable) + KindFields(r.kind))
  }

  function AllRecordFields(records: seq<Record>): seq<Field> {
    if records == [] then [] else RecordFields(records[0]) + AllRecordFields(records[1..])
  }

  function PatternFields(patterns: seq<Bytes>): seq<Field> {
    seq(|patterns|, i requires 0 <= i < |patterns| => Field(PatternName, patterns[i]))
  }

  function Stream(patterns: seq<Bytes>, records: seq<Record>): Bytes {
    WriteFields(PatternFields(patterns) + AllRecordFields(records))
  }

  // ---------- Reading them back ----------

  function ReadBool(s: string): Option<bool> {
    if s == "true" then Some(true) else if s == "false" then Some(false) else None
  }

  function ReadIndex(fields: seq<Field>): (r: (Option<bool>, seq<Field>))
    ensures |r.1| <= |fields|
  {
    if fields != [] && fields[0].name == IndexName then (ReadBool(fields[0].value), fields[1..])
    else (None, fields)
  }

  function ReadKind(fields: seq<Field>): (r: Option<(Kind, seq<Field>)>)
    ensures r.Some? ==> |r.value.1| < |fields|
  {
    if fields == [] then None
    else if fields[0].name == KindName then
      Some((if fields[0].value == "missing" then Gone else Other(fields[0].value), fields[1..]))
    else if fields[0].name == TargetName && |fields| >= 3 && ReadBool(fields[1].value).Some? then
      Some((Symlink(fields[0].value, ReadBool(fields[1].value).value, fields[2].value), fields[3..]))
    else if fields[0].name == ExecutableName && |fields| >= 2 && ReadBool(fields[0].value).Some? then
      Some((File(ReadBool(fields[0].value).value, fields[1].value), fields[2..]))
    else None
  }

  function ReadRecords(fields: seq<Field>): Option<seq<Record>>
    decreases |fields|
  {
    if fields == [] then Some([])
    else if fields[0].name != PathName then None
    else
      var index := ReadIndex(fields[1..]);
      var kind := ReadKind(index.1);
      if kind.None? then None
      else
        var tail := ReadRecords(kind.value.1);
        if tail.None? then None else Some([Record(fields[0].value, index.0, kind.value.0)] + tail.value)
  }

  function ReadPatterns(fields: seq<Field>): (r: (seq<Bytes>, seq<Field>)) {
    if fields != [] && fields[0].name == PatternName then
      var tail := ReadPatterns(fields[1..]);
      ([fields[0].value] + tail.0, tail.1)
    else ([], fields)
  }

  function ReadStream(s: Bytes): Option<(seq<Bytes>, seq<Record>)> {
    var fields := ReadFields(s);
    if fields.None? then None
    else
      var patterns := ReadPatterns(fields.value);
      var records := ReadRecords(patterns.1);
      if records.None? then None else Some((patterns.0, records.value))
  }

  /** No file mode is printed as "missing", and a missing file has no other fields. */
  predicate WellFormed(r: Record) {
    match r.kind
    case Gone => r.indexExecutable.None?
    case Other(mode) => mode != "missing"
    case _ => true
  }

  lemma IndexRoundTrip(index: Option<bool>, rest: seq<Field>)
    requires rest != [] && rest[0].name != IndexName
    ensures ReadIndex(IndexFields(index) + rest) == (index, rest)
  {
    if index.Some? {
      assert (IndexFields(index) + rest)[1..] == rest;
    } else {
      assert IndexFields(index) + rest == rest;
    }
  }

  lemma KindRoundTrip(kind: Kind, rest: seq<Field>)
    requires kind.Other? ==> kind.mode != "missing"
    ensures ReadKind(KindFields(kind) + rest) == Some((kind, rest))
    ensures (KindFields(kind) + rest)[0].name != IndexName
  {
    var fields := KindFields(kind) + rest;
    assert fields[|KindFields(kind)|..] == rest;
  }

  lemma OneRecordRoundTrip(r: Record, rest: seq<Field>)
    requires WellFormed(r)
    requires ReadRecords(rest).Some?
    ensures ReadRecords(RecordFields(r) + rest) == Some([r] + ReadRecords(rest).value)
  {
    hide ReadIndex, ReadKind, IndexFields, KindFields;
    KindRoundTrip(r.kind, rest);
    IndexRoundTrip(r.indexExecutable, KindFields(r.kind) + rest);
    var fields := RecordFields(r) + rest;
    assert fields[1..] == IndexFields(r.indexExecutable) + (KindFields(r.kind) + rest);
  }

  lemma {:induction false} RecordsRoundTrip(records: seq<Record>)
    requires forall r <- records :: WellFormed(r)
    ensures ReadRecords(AllRecordFields(records)) == Some(records)
  {
    if records != [] {
      hide ReadRecords, RecordFields, WellFormed;
      RecordsRoundTrip(records[1..]);
      OneRecordRoundTrip(records[0], AllRecordFields(records[1..]));
      assert records == [records[0]] + records[1..];
    }
  }

  lemma {:induction false} PatternsRoundTrip(patterns: seq<Bytes>, rest: seq<Field>)
    requires rest == [] || rest[0].name != PatternName
    ensures ReadPatterns(PatternFields(patterns) + rest) == (patterns, rest)
  {
    if patterns == [] {
      assert PatternFields(patterns) + rest == rest;
    } else {
      var fields := PatternFields(patterns) + rest;
      assert fields[1..] == PatternFields(patterns[1..]) + rest;
      PatternsRoundTrip(patterns[1..], rest);
      assert patterns == [patterns[0]] + patterns[1..];
    }
  }

  lemma RecordsStartWithPath(records: seq<Record>)
    ensures AllRecordFields(records) != [] ==> AllRecordFields(records)[0].name == PathName
  {
  }

  /** The hashed stream is uniquely decodable: it gives back the patterns and
      everything recorded about each file. */
  lemma StreamRoundTrip(patterns: seq<Bytes>, records: seq<Record>)
    requires forall r <- records :: WellFormed(r)
    ensures ReadStream(Stream(patterns, records)) == Some((patterns, records))
  {
    hide WriteFields, ReadFields, AllRecordFields, ReadRecords, ReadPatterns;
    RecordsStartWithPath(records);
    var fields := PatternFields(patterns) + AllRecordFields(records);
    FieldsRoundTrip(fields);
    PatternsRoundTrip(patterns, AllRecordFields(records));
    RecordsRoundTrip(records);
  }

  /** Equal streams mean equal patterns and equal records. */
  lemma StreamInjective(p: seq<Bytes>, r: seq<Record>, q: seq<Bytes>, s: seq<Record>)
    requires (forall x <- r :: WellFormed(x)) && (forall x <- s :: WellFormed(x))
    requires Stream(p, r) == Stream(q, s)
    ensures p == q && r == s
  {
    hide Stream, ReadStream;
    StreamRoundTrip(p, r);
    StreamRoundTrip(q, s);
  }
}
