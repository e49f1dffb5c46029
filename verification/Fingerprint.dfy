/** The fingerprint of a repository's relevant files
    (internal/evidence/fingerprint.go). What Git lists, the index and the files
    themselves are a `World`. */
module Fingerprint {
  import opened Model
  import opened SegmentNames
  import opened Sorting
  import opened Glob
  import opened Preimage
  import opened Deadline

  const MAX_LIST_BYTES: nat := 64 * 0x10_0000
  const MAX_RELEVANT_FILES: nat := 100_000
  const MAX_FINGERPRINT_BYTES: nat := 512 * 0x10_0000

  datatype Resolved = Resolved(executable: bool, content: Bytes)

  datatype FileState =
    | Missing
    | Unreadable                                       // any other error on the way to its content
    | Link(target: string, resolved: Option<Resolved>) // None: it leads outside or nowhere
    | Regular(executable: bool, content: Bytes)
    | Special(mode: string)

  datatype IndexEntry = IndexEntry(mode: string, stage: string, path: string, size: nat)

  /** `listed` are the paths of all `git ls-files` calls, one after the other;
      `listing` and `indexing` tell whether Git succeeded. */
  datatype World = World(
    listed: seq<string>, listing: bool, index: seq<IndexEntry>, indexing: bool, files: string -> FileState)
  {
    function State(path: string): FileState { files(path) }
  }

  /** SHA-256 of the stream and of one file, and the bytes of a string. */
  datatype Hashes = Hashes(sum: Bytes -> string, digest: Bytes -> string, utf8: string -> Bytes)
  {
    function Sum(s: Bytes): string { sum(s) }
    function Digest(s: Bytes): string { digest(s) }
    function Utf8(s: string): Bytes { utf8(s) }
  }

  datatype FingerprintError = BadPattern | Expired | ListTooLong | TooManyFiles | Submodule | BadFile | TooLarge

  // ---------- What is relevant ----------

  function Matchers(patterns: seq<string>): seq<seq<Token>> {
    seq(|patterns|, i requires 0 <= i < |patterns| => Compile(Trim(patterns[i])))
  }

  predicate MatchesAny(matchers: seq<seq<Token>>, path: string) {
    exists m <- matchers :: Match(m, path)
  }

  /** The matching paths among the first `n`, each once. */
  function Collected(matchers: seq<seq<Token>>, listed: seq<string>, n: nat): (r: seq<string>)
    requires n <= |listed|
    ensures NoRepeats(r)
    ensures forall p :: p in r <==> p in listed[..n] && p != "" && MatchesAny(matchers, p)
  {
    if n == 0 then []
    else
      var before := Collected(matchers, listed, n - 1);
      var p := listed[n - 1];
      assert listed[..n] == listed[..n - 1] + [p];
      if p != "" && MatchesAny(matchers, p) && p !in before then before + [p] else before
  }

  function ListedBytes(h: Hashes, listed: seq<string>, n: nat): nat
    requires n <= |listed|
  {
    if n == 0 then 0 else ListedBytes(h, listed, n - 1) + |h.Utf8(listed[n - 1])| + 1
  }

  function IndexBytes(index: seq<IndexEntry>, n: nat): nat
    requires n <= |index|
  {
    if n == 0 then 0 else IndexBytes(index, n - 1) + index[n - 1].size
  }

  /** The index modes of matching paths; the last entry of a path counts. */
  function Modes(matchers: seq<seq<Token>>, index: seq<IndexEntry>, n: nat): map<string, string>
    requires n <= |index|
  {
    if n == 0 then map[]
    else
      var before := Modes(matchers, index, n - 1);
      var e := index[n - 1];
      if e.stage == "0" && MatchesAny(matchers, e.path) then before[e.path := e.mode] else before
  }

  function Gitlinks(index: seq<IndexEntry>, n: nat): seq<string>
    requires n <= |index|
  {
    if n == 0 then []
    else Gitlinks(index, n - 1) + if index[n - 1].mode == "160000" then [index[n - 1].path] else []
  }

  predicate Covers(patterns: seq<string>, gitlink: string) {
    exists p <- patterns :: MayCoverGitlink(p, Compile(Trim(p)), gitlink)
  }

  // ---------- What is recorded of a file ----------

  predicate Recordable(s: FileState) {
    !s.Unreadable? && (s.Link? ==> s.resolved.Some?)
  }

  function SizeOf(s: FileState): nat {
    match s
    case Regular(_, content) => |content|
    case Link(_, Some(file)) => |file.content|
    case _ => 0
  }

  function Executable(modes: map<string, string>, path: string): Option<bool> {
    if path in modes then Some(modes[path] == "100755") else None
  }

  function RecordOf(h: Hashes, path: string, s: FileState, index: Option<bool>): Record
    requires Recordable(s)
  {
    match s
    case Missing => Record(h.Utf8(path), None, Gone)
    case Link(target, resolved) =>
      Record(h.Utf8(path), index, Symlink(h.Utf8(target), resolved.value.executable, h.Digest(resolved.value.content)))
    case Regular(executable, content) => Record(h.Utf8(path), index, File(executable, h.Digest(content)))
    case Special(mode) => Record(h.Utf8(path), index, Other(mode))
  }

  // ---------- The fingerprint as a function of the world ----------

  function Relevant(w: World, patterns: seq<string>): (r: seq<string>) {
    Sort(Before, Collected(Matchers(patterns), w.listed, |w.listed|))
  }

  function IndexModes(w: World, patterns: seq<string>): map<string, string> {
    Modes(Matchers(patterns), w.index, |w.index|)
  }

  function TotalSize(w: World, paths: seq<string>, n: nat): nat
    requires n <= |paths|
  {
    if n == 0 then 0 else TotalSize(w, paths, n - 1) + SizeOf(w.State(paths[n - 1]))
  }

  ghost predicate PatternsOk(patterns: seq<string>) {
    forall p <- patterns :: ValidPattern(p)
  }

  ghost predicate ListsFit(h: Hashes, w: World, patterns: seq<string>) {
    && w.listing && w.indexing
    && ListedBytes(h, w.listed, |w.listed|) + IndexBytes(w.index, |w.index|) <= MAX_LIST_BYTES
    && |Collected(Matchers(patterns), w.listed, |w.listed|)| <= MAX_RELEVANT_FILES
  }

  ghost predicate NoSubmodule(w: World, patterns: seq<string>) {
    forall g <- Gitlinks(w.index, |w.index|) :: !Covers(patterns, g)
  }

  ghost predicate FilesFit(w: World, paths: seq<string>, n: nat)
    requires n <= |paths|
  {
    (forall i :: 0 <= i < n ==> Recordable(w.State(paths[i]))) && TotalSize(w, paths, n) <= MAX_FINGERPRINT_BYTES
  }

  /** Exactly when a fingerprint exists. */
  ghost predicate Computable(h: Hashes, w: World, patterns: seq<string>) {
    && PatternsOk(patterns) && ListsFit(h, w, patterns) && NoSubmodule(w, patterns)
    && FilesFit(w, Relevant(w, patterns), |Relevant(w, patterns)|)
  }

  function Records(h: Hashes, w: World, modes: map<string, string>, paths: seq<string>): (r: seq<Record>)
    requires forall i :: 0 <= i < |paths| ==> Recordable(w.State(paths[i]))
    ensures |r| == |paths|
  {
    seq(|paths|, i requires 0 <= i < |paths| =>
      RecordOf(h, paths[i], w.State(paths[i]), Executable(modes, paths[i])))
  }

  function EncodeAll(h: Hashes, texts: seq<string>): seq<Bytes> {
    seq(|texts|, i requires 0 <= i < |texts| => h.Utf8(texts[i]))
  }

  ghost function FingerprintOf(h: Hashes, w: World, patterns: seq<string>): string
    requires Computable(h, w, patterns)
  {
    "sha256:" + h.Sum(Stream(EncodeAll(h, patterns), Records(h, w, IndexModes(w, patterns), Relevant(w, patterns))))
  }

  // ---------- Computing it ----------

  method CompileAll(patterns: seq<string>) returns (r: Option<seq<seq<Token>>>)
    ensures r.Some? <==> PatternsOk(patterns)
    ensures r.Some? ==> r.value == Matchers(patterns)
  {
    hide Compile, Trim, ValidPattern;
    var matchers: seq<seq<Token>> := [];
    var i := 0;
    while i < |patterns|
      invariant 0 <= i <= |patterns|
      invariant forall k :: 0 <= k < i ==> ValidPattern(patterns[k])
      invariant matchers == Matchers(patterns)[..i]
    {
      var m := CompileGlob(patterns[i]);
      if m.None? { return None; }
      matchers := matchers + [m.value];
      i := i + 1;
    }
    assert matchers == Matchers(patterns);
    r := Some(matchers);
  }

  lemma {:induction false} BytesGrow(h: Hashes, listed: seq<string>, n: nat, m: nat)
    requires n <= m <= |listed|
    ensures ListedBytes(h, listed, n) <= ListedBytes(h, listed, m)
  {
    if n < m { BytesGrow(h, listed, n, m - 1); }
  }

  lemma {:induction false} CollectedGrows(matchers: seq<seq<Token>>, listed: seq<string>, n: nat, m: nat)
    requires n <= m <= |listed|
    ensures |Collected(matchers, listed, n)| <= |Collected(matchers, listed, m)|
  {
    hide MatchesAny;
    if n < m { CollectedGrows(matchers, listed, n, m - 1); }
  }

  lemma CollectedStep(h: Hashes, matchers: seq<seq<Token>>, listed: seq<string>, n: nat)
    requires n < |listed|
    ensures var before, p := Collected(matchers, listed, n), listed[n];
            Collected(matchers, listed, n + 1)
            == if p != "" && MatchesAny(matchers, p) && p !in before then before + [p] else before
    ensures ListedBytes(h, listed, n + 1) == ListedBytes(h, listed, n) + |h.Utf8(listed[n])| + 1
  {
    hide MatchesAny, NoRepeats;
  }

  lemma NothingListed(h: Hashes, matchers: seq<seq<Token>>, listed: seq<string>)
    ensures Collected(matchers, listed, 0) == [] && ListedBytes(h, listed, 0) == 0
  {
  }

  /** Every path Git lists, filtered, each once, within the limits. */
  method CollectGitFiles(ctx: Context, h: Hashes, listed: seq<string>, succeeds: bool, matchers: seq<seq<Token>>)
    returns (ok: bool, files: seq<string>, listedBytes: nat)
    modifies ctx
    ensures ctx.Later()
    ensures old(ctx.expired) && listed != [] ==> !ok
    ensures ok ==> && succeeds && files == Collected(matchers, listed, |listed|)
                   && listedBytes == ListedBytes(h, listed, |listed|)
                   && |files| <= MAX_RELEVANT_FILES && listedBytes <= MAX_LIST_BYTES
    ensures !ok ==> ctx.expired || !succeeds || ListedBytes(h, listed, |listed|) > MAX_LIST_BYTES
                    || |Collected(matchers, listed, |listed|)| > MAX_RELEVANT_FILES
  {
    hide MatchesAny, NoRepeats, Collected, ListedBytes;
    files, listedBytes := [], 0;
    NothingListed(h, matchers, listed);
    var seen: set<string> := {};
    var i := 0;
    while i < |listed|
      invariant 0 <= i <= |listed|
      invariant ctx.Later()
      invariant old(ctx.expired) ==> i == 0
      invariant files == Collected(matchers, listed, i) && seen == set p <- files
      invariant listedBytes == ListedBytes(h, listed, i)
      invariant |files| <= MAX_RELEVANT_FILES && listedBytes <= MAX_LIST_BYTES
    {
      var rel := listed[i];
      BytesGrow(h, listed, i + 1, |listed|);
      CollectedGrows(matchers, listed, i + 1, |listed|);
      CollectedStep(h, matchers, listed, i);
      listedBytes := listedBytes + |h.Utf8(rel)| + 1;
      if listedBytes > 67_108_864 { return false, files, listedBytes; }
      if rel != "" && MatchesAny(matchers, rel) {
        if rel !in seen {
          if |files| >= 100_000 { return false, files, listedBytes; }
          seen := seen + {rel};
          files := files + [rel];
        }
      }
      var e := ctx.Err();
      if e { return false, files, listedBytes; }
      i := i + 1;
    }
    ok := succeeds;
  }

  lemma {:induction false} IndexGrows(index: seq<IndexEntry>, n: nat, m: nat)
    requires n <= m <= |index|
    ensures IndexBytes(index, n) <= IndexBytes(index, m)
  {
    if n < m { IndexGrows(index, n, m - 1); }
  }

  method CollectGitIndex(ctx: Context, index: seq<IndexEntry>, succeeds: bool, matchers: seq<seq<Token>>, listed: nat)
    returns (ok: bool, modes: map<string, string>, gitlinks: seq<string>)
    requires listed <= MAX_LIST_BYTES
    modifies ctx
    ensures ctx.Later()
    ensures old(ctx.expired) && index != [] ==> !ok
    ensures ok ==> && succeeds && modes == Modes(matchers, index, |index|) && gitlinks == Gitlinks(index, |index|)
                   && listed + IndexBytes(index, |index|) <= MAX_LIST_BYTES
    ensures !ok ==> ctx.expired || !succeeds || listed + IndexBytes(index, |index|) > MAX_LIST_BYTES
  {
    hide MatchesAny;
    modes, gitlinks := map[], [];
    var total := listed;
    var i := 0;
    while i < |index|
      invariant 0 <= i <= |index|
      invariant ctx.Later()
      invariant old(ctx.expired) ==> i == 0
      invariant modes == Modes(matchers, index, i) && gitlinks == Gitlinks(index, i)
      invariant total == listed + IndexBytes(index, i) <= MAX_LIST_BYTES
    {
      IndexGrows(index, i + 1, |index|);
      var e := index[i];
      total := total + e.size;
      if total > 67_108_864 { return false, modes, gitlinks; }
      if e.mode == "160000" { gitlinks := gitlinks + [e.path]; }
      if e.stage == "0" && MatchesAny(matchers, e.path) { modes := modes[e.path := e.mode]; }
      var x := ctx.Err();
      if x { return false, modes, gitlinks; }
      i := i + 1;
    }
    ok := succeeds;
  }

  /** No pattern may cover a submodule. */
  method CheckGitlinks(ctx: Context, patterns: seq<string>, matchers: seq<seq<Token>>, gitlinks: seq<string>)
      returns (ok: bool)
    requires matchers == Matchers(patterns)
    modifies ctx
    ensures ctx.Later()
    ensures old(ctx.expired) && gitlinks != [] && patterns != [] ==> !ok
    ensures ok ==> forall g <- gitlinks :: !Covers(patterns, g)
    ensures !ok ==> ctx.expired || exists g <- gitlinks :: Covers(patterns, g)
  {
    hide Compile, Trim, MayCoverGitlink;
    var i := 0;
    while i < |gitlinks|
      invariant 0 <= i <= |gitlinks|
      invariant ctx.Later()
      invariant old(ctx.expired) && patterns != [] ==> i == 0
      invariant forall k :: 0 <= k < i ==> !Covers(patterns, gitlinks[k])
    {
      var j := 0;
      while j < |patterns|
        invariant 0 <= j <= |patterns|
        invariant ctx.Later()
        invariant old(ctx.expired) ==> j == 0
        invariant forall k :: 0 <= k < j ==> !MayCoverGitlink(patterns[k], Compile(Trim(patterns[k])), gitlinks[i])
      {
        var e := ctx.Err();
        if e { return false; }
        if MayCoverGitlink(patterns[j], matchers[j], gitlinks[i]) {
          assert patterns[j] in patterns && gitlinks[i] in gitlinks;
          assert Covers(patterns, gitlinks[i]);
          return false;
        }
        j := j + 1;
      }
      assert !Covers(patterns, gitlinks[i]);
      i := i + 1;
    }
    ok := true;
  }

  lemma {:induction false} SizesGrow(w: World, paths: seq<string>, n: nat, m: nat)
    requires n <= m <= |paths|
    ensures TotalSize(w, paths, n) <= TotalSize(w, paths, m)
  {
    hide SizeOf;
    if n < m { SizesGrow(w, paths, n, m - 1); }
  }

  lemma FilesFitPrefix(w: World, paths: seq<string>, n: nat)
    requires n <= |paths|
    ensures FilesFit(w, paths, |paths|) ==> FilesFit(w, paths, n)
  {
    hide Recordable, SizeOf;
    SizesGrow(w, paths, n, |paths|);
  }

  lemma {:induction false} WriteAppend(a: seq<Field>, b: seq<Field>)
    ensures WriteFields(a + b) == WriteFields(a) + WriteFields(b)
  {
    hide WriteField;
    if a == [] {
      assert a + b == b;
    } else {
      assert (a + b)[1..] == a[1..] + b;
      WriteAppend(a[1..], b);
    }
  }

  lemma {:induction false} RecordsAppend(a: seq<Record>, r: Record)
    ensures AllRecordFields(a + [r]) == AllRecordFields(a) + RecordFields(r)
  {
    hide RecordFields;
    if a == [] {
      assert a + [r] == [r];
    } else {
      assert (a + [r])[1..] == a[1..] + [r];
      RecordsAppend(a[1..], r);
    }
  }

  /** The stream after the patterns and the records of the first `n` paths. */
  ghost predicate Written(h: Hashes, w: World, patterns: seq<string>, modes: map<string, string>, paths: seq<string>,
      n: nat, stream: Bytes) {
    && n <= |paths| && FilesFit(w, paths, n)
    && stream == Stream(EncodeAll(h, patterns), Records(h, w, modes, paths[..n]))
  }

  lemma WrittenStep(h: Hashes, w: World, patterns: seq<string>, modes: map<string, string>, paths: seq<string>,
      n: nat, stream: Bytes)
    requires Written(h, w, patterns, modes, paths, n, stream) && n < |paths|
    requires Recordable(w.State(paths[n])) && TotalSize(w, paths, n + 1) <= MAX_FINGERPRINT_BYTES
    ensures var r := RecordOf(h, paths[n], w.State(paths[n]), Executable(modes, paths[n]));
            Written(h, w, patterns, modes, paths, n + 1, stream + WriteFields(RecordFields(r)))
  {
    hide Recordable, RecordOf, Executable, WriteFields, RecordFields, Stream, TotalSize, EncodeAll, Records;
    RecordsNext(h, w, modes, paths, n);
    var r := RecordOf(h, paths[n], w.State(paths[n]), Executable(modes, paths[n]));
    StreamAppend(EncodeAll(h, patterns), Records(h, w, modes, paths[..n]), r);
  }

  lemma RecordsNext(h: Hashes, w: World, modes: map<string, string>, paths: seq<string>, n: nat)
    requires n < |paths| && forall i :: 0 <= i <= n ==> Recordable(w.State(paths[i]))
    ensures Records(h, w, modes, paths[..n + 1])
         == Records(h, w, modes, paths[..n]) + [RecordOf(h, paths[n], w.State(paths[n]), Executable(modes, paths[n]))]
  {
    hide Recordable, RecordOf, Executable;
  }

  lemma StreamAppend(patterns: seq<Bytes>, before: seq<Record>, r: Record)
    ensures Stream(patterns, before + [r]) == Stream(patterns, before) + WriteFields(RecordFields(r))
  {
    hide WriteFields, RecordFields, AllRecordFields, PatternFields;
    RecordsAppend(before, r);
    var ps := PatternFields(patterns);
    assert ps + (AllRecordFields(before) + RecordFields(r)) == (ps + AllRecordFields(before)) + RecordFields(r);
    WriteAppend(ps + AllRecordFields(before), RecordFields(r));
  }

  lemma WrittenStart(h: Hashes, w: World, patterns: seq<string>, modes: map<string, string>, paths: seq<string>)
    ensures Written(h, w, patterns, modes, paths, 0, WriteFields(PatternFields(EncodeAll(h, patterns))))
  {
    assert PatternFields(EncodeAll(h, patterns)) + [] == PatternFields(EncodeAll(h, patterns));
  }

  /** One path: its record is written, or it cannot be recorded. */
  method WriteFile(ctx: Context, h: Hashes, w: World, path: string, modes: map<string, string>, stream: Bytes,
      total: nat)
    returns (ok: bool, all: Bytes, size: nat)
    modifies ctx
    ensures ctx.Later()
    ensures old(ctx.expired) ==> !ok
    ensures ok ==>
              && Recordable(w.State(path))
              && size == total + SizeOf(w.State(path)) && (size <= MAX_FINGERPRINT_BYTES || size == total)
              && var record := RecordOf(h, path, w.State(path), Executable(modes, path));
                 all == stream + WriteFields(RecordFields(record))
    ensures !ok ==> ctx.expired || !Recordable(w.State(path)) || total + SizeOf(w.State(path)) > MAX_FINGERPRINT_BYTES
  {
    hide WriteField, WriteFields, Text;
    all, size := stream, total;
    ok := false;
    var e := ctx.Err();
    if e { return; }
    var state := w.State(path);
    if state.Unreadable? { return; }
    FieldNames();
    var index := Executable(modes, path);
    var out := WriteTo(stream, "path", PathName, h.Utf8(path));
    if !state.Missing? && path in modes {
      out := WriteTo(out, "git-index-executable", IndexName, Bool(modes[path] == "100755"));
    }
    match state {
      case Missing =>
        out := WriteTo(out, "kind", KindName, "missing");
      case Link(target, resolved) =>
        out := WriteTo(out, "symlink", TargetName, h.Utf8(target));
        if resolved.None? { return; }
        size := size + |resolved.value.content|;
        if size > 536_870_912 { return; }
        e := ctx.Err();
        if e { return; }
        out := WriteTo(out, "target-executable", TargetExecutable, Bool(resolved.value.executable));
        out := WriteTo(out, "symlink-target-sha256", TargetDigest, h.Digest(resolved.value.content));
      case Special(kind) =>
        out := WriteTo(out, "kind", KindName, kind);
      case Regular(executable, content) =>
        out := WriteTo(out, "executable", ExecutableName, Bool(executable));
        size := size + |content|;
        if size > 536_870_912 { return; }
        e := ctx.Err();
        if e { return; }
        out := WriteTo(out, "sha256", DigestName, h.Digest(content));
    }
    RecordWritten(stream, RecordOf(h, path, state, index));
    all := out;
    ok := true;
  }

  lemma FieldNames()
    ensures Text(PathName) == "path" && Text(KindName) == "kind" && Text(IndexName) == "git-index-executable"
    ensures Text(TargetName) == "symlink" && Text(TargetExecutable) == "target-executable"
    ensures Text(TargetDigest) == "symlink-target-sha256"
    ensures Text(ExecutableName) == "executable" && Text(DigestName) == "sha256"
  {
  }

  /** The fields of a record, one after the other. */
  lemma RecordWritten(stream: Bytes, r: Record)
    ensures var head := stream + WriteField(Field(PathName, r.path));
            var mode := if r.indexExecutable.Some?
                        then head + WriteField(Field(IndexName, Bool(r.indexExecutable.value))) else head;
            stream + WriteFields(RecordFields(r)) ==
              match r.kind
              case Gone => mode + WriteField(Field(KindName, "missing"))
              case Other(kind) => mode + WriteField(Field(KindName, kind))
              case File(executable, digest) =>
                mode + WriteField(Field(ExecutableName, Bool(executable))) + WriteField(Field(DigestName, digest))
              case Symlink(target, executable, digest) =>
                mode + WriteField(Field(TargetName, target)) + WriteField(Field(TargetExecutable, Bool(executable)))
                + WriteField(Field(TargetDigest, digest))
  {
    hide WriteField, WriteFields;
    var index, kind := IndexFields(r.indexExecutable), KindFields(r.kind);
    WriteAppend([Field(PathName, r.path)], index + kind);
    WriteAppend(index, kind);
    OneWritten(Field(PathName, r.path));
    NothingWritten();
    if index != [] { OneWritten(index[0]); }
    match r.kind
    case Gone => OneWritten(kind[0]);
    case Other(_) => OneWritten(kind[0]);
    case File(_, _) =>
      OneWritten(kind[0]);
      OneWritten(kind[1]);
      assert kind == [kind[0]] + [kind[1]];
      WriteAppend([kind[0]], [kind[1]]);
    case Symlink(_, _, _) =>
      OneWritten(kind[0]);
      OneWritten(kind[1]);
      OneWritten(kind[2]);
      assert kind == [kind[0]] + [kind[1]] + [kind[2]];
      WriteAppend([kind[0]], [kind[1]]);
      WriteAppend([kind[0]] + [kind[1]], [kind[2]]);
  }

  lemma OneWritten(f: Field)
    ensures WriteFields([f]) == WriteField(f)
  {
    assert WriteField(f) + [] == WriteField(f);
  }

  lemma NothingWritten()
    ensures WriteFields([]) == []
  {
  }

  method WritePatterns(h: Hashes, patterns: seq<string>) returns (stream: Bytes)
    ensures stream == WriteFields(PatternFields(EncodeAll(h, patterns)))
  {
    hide WriteField, WriteFields;
    ghost var fields := PatternFields(EncodeAll(h, patterns));
    NothingWritten();
    stream := [];
    var i := 0;
    while i < |patterns|
      invariant 0 <= i <= |patterns| && stream == WriteFields(fields[..i])
    {
      assert fields[..i + 1] == fields[..i] + [fields[i]];
      WriteAppend(fields[..i], [fields[i]]);
      OneWritten(fields[i]);
      stream := WriteTo(stream, "pattern", PatternName, h.utf8(patterns[i]));
      i := i + 1;
    }
    assert fields[..i] == fields;
  }

  method WriteFiles(ctx: Context, h: Hashes, w: World, patterns: seq<string>, modes: map<string, string>,
      paths: seq<string>)
    returns (ok: bool, stream: Bytes)
    modifies ctx
    ensures ctx.Later()
    ensures old(ctx.expired) && paths != [] ==> !ok
    ensures ok ==> Written(h, w, patterns, modes, paths, |paths|, stream)
    ensures !ok ==> ctx.expired || !FilesFit(w, paths, |paths|)
  {
    hide Written, Recordable, SizeOf, RecordOf, WriteFields, RecordFields, PatternFields;
    stream := WritePatterns(h, patterns);
    WrittenStart(h, w, patterns, modes, paths);
    var total := 0;
    var i := 0;
    while i < |paths|
      invariant 0 <= i <= |paths|
      invariant ctx.Later()
      invariant old(ctx.expired) ==> i == 0
      invariant Written(h, w, patterns, modes, paths, i, stream)
      invariant total == TotalSize(w, paths, i) <= MAX_FINGERPRINT_BYTES
    {
      FilesFitPrefix(w, paths, i + 1);
      ghost var before := stream;
      ok, stream, total := WriteFile(ctx, h, w, paths[i], modes, stream, total);
      if !ok { return; }
      WrittenStep(h, w, patterns, modes, paths, i, before);
      i := i + 1;
    }
    ok := true;
  }

  /** The fingerprint, and how many files it covers. */
  method FingerprintContext(ctx: Context, h: Hashes, w: World, patterns: seq<string>)
    returns (r: Result<(string, nat), FingerprintError>)
    modifies ctx
    ensures ctx.Later()
    ensures old(ctx.expired) ==> r.Err?
    ensures r.Ok? ==> Computable(h, w, patterns) && r.value == (FingerprintOf(h, w, patterns), |Relevant(w, patterns)|)
    ensures r.Err? ==> ctx.expired || !Computable(h, w, patterns)
  {
    hide PatternsOk, Covers, FilesFit, Matchers, Collected, Modes, Gitlinks, Records, EncodeAll, Stream;
    var matchers := CompileAll(patterns);
    if matchers.None? { return Err(BadPattern); }
    var e := ctx.Err();
    if e { return Err(Expired); }
    var ok, files, listedBytes := CollectGitFiles(ctx, h, w.listed, w.listing, matchers.value);
    if !ok { return Err(ListTooLong); }
    var modes, gitlinks;
    ok, modes, gitlinks := CollectGitIndex(ctx, w.index, w.indexing, matchers.value, listedBytes);
    if !ok { return Err(ListTooLong); }
    ok := CheckGitlinks(ctx, patterns, matchers.value, gitlinks);
    if !ok { return Err(Submodule); }
    files := Sort(Before, files);
    var stream;
    ok, stream := WriteFiles(ctx, h, w, patterns, modes, files);
    if !ok { return Err(BadFile); }
    assert files[..|files|] == files;
    r := Ok(("sha256:" + h.Sum(stream), |files|));
  }

  // ---------- What equal fingerprints mean ----------

  /** Git lists the path, and some pattern matches it. */
  ghost predicate Selected(w: World, patterns: seq<string>, path: string) {
    path in w.listed && path != "" && exists g <- patterns :: Match(Compile(Trim(g)), path)
  }

  /** The mode of the last merged entry of a path. */
  ghost function StagedMode(index: seq<IndexEntry>, path: string): Option<string> {
    if index == [] then None
    else
      var last := index[|index| - 1];
      if last.stage == "0" && last.path == path then Some(last.mode) else StagedMode(index[..|index| - 1], path)
  }

  /** What the fingerprint is meant to notice about one path: its kind, its
      content or target, and whether it is executable on disk and in the index. */
  datatype Observation = Observation(state: FileState, indexExecutable: Option<bool>)

  ghost function Observed(w: World, path: string): Observation {
    if w.State(path).Missing? then Observation(Missing, None)
    else
      var mode := StagedMode(w.index, path);
      Observation(w.State(path), if mode.Some? then Some(mode.value == "100755") else None)
  }

  lemma AnyMatcher(patterns: seq<string>, path: string)
    ensures MatchesAny(Matchers(patterns), path) <==> exists g <- patterns :: Match(Compile(Trim(g)), path)
  {
    hide Match, Compile, Trim;
    var matchers := Matchers(patterns);
    if MatchesAny(matchers, path) {
      var m :| m in matchers && Match(m, path);
      var i :| 0 <= i < |matchers| && matchers[i] == m;
      assert patterns[i] in patterns;
    }
    if g :| g in patterns && Match(Compile(Trim(g)), path) {
      var i :| 0 <= i < |patterns| && patterns[i] == g;
      assert matchers[i] in matchers;
    }
  }

  /** The relevant files are exactly those Git lists and some pattern matches. */
  lemma RelevantMeans(w: World, patterns: seq<string>, path: string)
    ensures path in Relevant(w, patterns) <==> Selected(w, patterns, path)
  {
    hide MatchesAny, Match, Compile, Trim, Matchers, Relevant;
    RelevantSorted(w, patterns);
    AnyMatcher(patterns, path);
  }

  lemma {:induction false} ModesMean(matchers: seq<seq<Token>>, index: seq<IndexEntry>, n: nat, path: string)
    requires n <= |index|
    ensures path in Modes(matchers, index, n) <==> MatchesAny(matchers, path) && StagedMode(index[..n], path).Some?
    ensures path in Modes(matchers, index, n) ==>
              StagedMode(index[..n], path) == Some(Modes(matchers, index, n)[path])
  {
    hide MatchesAny;
    if n > 0 {
      ModesMean(matchers, index, n - 1, path);
      assert index[..n][..n - 1] == index[..n - 1];
    }
  }

  /** The index modes are those of the paths that some pattern matches. */
  lemma IndexModesMean(w: World, patterns: seq<string>, path: string)
    ensures path in IndexModes(w, patterns) <==>
            (exists g <- patterns :: Match(Compile(Trim(g)), path)) && StagedMode(w.index, path).Some?
    ensures path in IndexModes(w, patterns) ==> StagedMode(w.index, path) == Some(IndexModes(w, patterns)[path])
  {
    hide MatchesAny, Match, Compile, Trim, Modes, StagedMode, Matchers;
    AnyMatcher(patterns, path);
    assert w.index[..|w.index|] == w.index;
    ModesMean(Matchers(patterns), w.index, |w.index|, path);
  }

  /** What is recorded of a selected path is what is to be noticed about it. */
  lemma ObservedIs(w: World, patterns: seq<string>, path: string)
    requires Selected(w, patterns, path)
    ensures Observed(w, path) == if w.State(path).Missing? then Observation(Missing, None)
                                 else Observation(w.State(path), Executable(IndexModes(w, patterns), path))
  {
    hide Match, Compile, Trim, StagedMode, IndexModes;
    IndexModesMean(w, patterns, path);
  }

  /** Hashes and the encoding of strings do not collide. */
  ghost predicate CollisionFree(h: Hashes) {
    && (forall a, b :: h.Sum(a) == h.Sum(b) ==> a == b)
    && (forall a, b :: h.Digest(a) == h.Digest(b) ==> a == b)
    && (forall a, b :: h.Utf8(a) == h.Utf8(b) ==> a == b)
  }

  /** No kind of file is printed as "missing". */
  ghost predicate KindsPrinted(w: World) {
    forall p :: w.State(p).Special? ==> w.State(p).mode != "missing"
  }

  lemma RelevantSorted(w: World, patterns: seq<string>)
    ensures Increasing(Relevant(w, patterns))
    ensures forall p :: p in Relevant(w, patterns) <==> p in w.listed && p != "" && MatchesAny(Matchers(patterns), p)
  {
    hide Collected, MatchesAny, Sort, Increasing;
    var all := Collected(Matchers(patterns), w.listed, |w.listed|);
    assert w.listed[..|w.listed|] == w.listed;
    SortedStrings(all);
    SortKeepsElements(Before, all);
  }

  lemma SameRecord(h: Hashes, v: World, w: World, patterns: seq<string>, path: string)
    requires Recordable(v.State(path)) && Recordable(w.State(path))
    requires Selected(v, patterns, path) && Selected(w, patterns, path) && Observed(v, path) == Observed(w, path)
    ensures RecordOf(h, path, v.State(path), Executable(IndexModes(v, patterns), path))
         == RecordOf(h, path, w.State(path), Executable(IndexModes(w, patterns), path))
  {
    hide Selected, IndexModes, Executable, Observed;
    ObservedIs(v, patterns, path);
    ObservedIs(w, patterns, path);
  }

  /** Worlds that agree on the matching files have the same fingerprint. */
  lemma AgreeingWorlds(h: Hashes, v: World, w: World, patterns: seq<string>)
    requires Computable(h, v, patterns) && Computable(h, w, patterns)
    requires forall p :: Selected(v, patterns, p) <==> Selected(w, patterns, p)
    requires forall p :: Selected(v, patterns, p) ==> Observed(v, p) == Observed(w, p)
    ensures FingerprintOf(h, v, patterns) == FingerprintOf(h, w, patterns)
  {
    hide Relevant, Observed, IndexModes, RecordOf, Stream, EncodeAll, PatternsOk, ListsFit, NoSubmodule, Increasing,
        Selected, Executable;
    RelevantSorted(v, patterns);
    RelevantSorted(w, patterns);
    forall p ensures p in Relevant(v, patterns) <==> p in Relevant(w, patterns) {
      RelevantMeans(v, patterns, p);
      RelevantMeans(w, patterns, p);
    }
    IncreasingUnique(Relevant(v, patterns), Relevant(w, patterns));
    var paths := Relevant(v, patterns);
    forall i | 0 <= i < |paths|
      ensures RecordOf(h, paths[i], v.State(paths[i]), Executable(IndexModes(v, patterns), paths[i]))
           == RecordOf(h, paths[i], w.State(paths[i]), Executable(IndexModes(w, patterns), paths[i]))
    {
      RelevantMeans(v, patterns, paths[i]);
      SameRecord(h, v, w, patterns, paths[i]);
    }
    assert Records(h, v, IndexModes(v, patterns), paths) == Records(h, w, IndexModes(w, patterns), paths);
  }

  lemma RecordTells(h: Hashes, p: string, s: FileState, i: Option<bool>, q: string, t: FileState, j: Option<bool>)
    requires CollisionFree(h) && Recordable(s) && Recordable(t)
    requires RecordOf(h, p, s, i) == RecordOf(h, q, t, j)
    ensures p == q && s == t && (s.Missing? || i == j)
  {
  }

  lemma RecordOk(h: Hashes, p: string, s: FileState, i: Option<bool>)
    requires Recordable(s) && (s.Special? ==> s.mode != "missing")
    ensures WellFormed(RecordOf(h, p, s, i))
  {
  }

  lemma RecordsOk(h: Hashes, w: World, modes: map<string, string>, paths: seq<string>)
    requires KindsPrinted(w) && forall i :: 0 <= i < |paths| ==> Recordable(w.State(paths[i]))
    ensures forall r <- Records(h, w, modes, paths) :: WellFormed(r)
  {
    hide Recordable, RecordOf, WellFormed, Executable;
    var records := Records(h, w, modes, paths);
    forall r | r in records ensures WellFormed(r) {
      var i :| 0 <= i < |records| && records[i] == r;
      RecordOk(h, paths[i], w.State(paths[i]), Executable(modes, paths[i]));
    }
  }

  lemma EncodeInjective(h: Hashes, a: seq<string>, b: seq<string>)
    requires CollisionFree(h) && EncodeAll(h, a) == EncodeAll(h, b)
    ensures a == b
  {
    assert |a| == |EncodeAll(h, a)| == |b|;
    forall i | 0 <= i < |a| ensures a[i] == b[i] {
      assert EncodeAll(h, a)[i] == EncodeAll(h, b)[i];
    }
  }

  lemma SameStreams(h: Hashes, v: World, p: seq<string>, w: World, q: seq<string>)
    requires CollisionFree(h) && KindsPrinted(v) && KindsPrinted(w)
    requires Computable(h, v, p) && Computable(h, w, q)
    requires FingerprintOf(h, v, p) == FingerprintOf(h, w, q)
    ensures p == q
    ensures Records(h, v, IndexModes(v, p), Relevant(v, p)) == Records(h, w, IndexModes(w, q), Relevant(w, q))
  {
    hide Relevant, IndexModes, Records, Stream, EncodeAll, PatternsOk, ListsFit, NoSubmodule, Recordable, KindsPrinted;
    var r, s := Records(h, v, IndexModes(v, p), Relevant(v, p)), Records(h, w, IndexModes(w, q), Relevant(w, q));
    var x, y := h.Sum(Stream(EncodeAll(h, p), r)), h.Sum(Stream(EncodeAll(h, q), s));
    assert ("sha256:" + x)[7..] == x && ("sha256:" + y)[7..] == y;
    RecordsOk(h, v, IndexModes(v, p), Relevant(v, p));
    RecordsOk(h, w, IndexModes(w, q), Relevant(w, q));
    StreamInjective(EncodeAll(h, p), r, EncodeAll(h, q), s);
    EncodeInjective(h, p, q);
  }

  lemma SameRecords(h: Hashes, v: World, p: seq<string>, w: World, i: nat)
    requires CollisionFree(h) && Computable(h, v, p) && Computable(h, w, p)
    requires Records(h, v, IndexModes(v, p), Relevant(v, p)) == Records(h, w, IndexModes(w, p), Relevant(w, p))
    requires i < |Relevant(v, p)|
    ensures i < |Relevant(w, p)| && Relevant(v, p)[i] == Relevant(w, p)[i]
    ensures Observed(v, Relevant(v, p)[i]) == Observed(w, Relevant(v, p)[i])
  {
    hide Relevant, IndexModes, RecordOf, PatternsOk, ListsFit, NoSubmodule, Recordable, CollisionFree, Executable,
        Selected, Observed;
    var a, b := Relevant(v, p), Relevant(w, p);
    var r, s := Records(h, v, IndexModes(v, p), a), Records(h, w, IndexModes(w, p), b);
    assert |a| == |r| == |b| && r[i] == s[i];
    RecordTells(h, a[i], v.State(a[i]), Executable(IndexModes(v, p), a[i]), b[i], w.State(b[i]),
        Executable(IndexModes(w, p), b[i]));
    RelevantMeans(v, p, a[i]);
    RelevantMeans(w, p, b[i]);
    ObservedIs(v, p, a[i]);
    ObservedIs(w, p, a[i]);
  }

  /** Equal fingerprints mean: the same patterns, the same files that some of
      them matches, and each of these the same in kind, executable bits, link
      target and content. */
  lemma EqualFingerprints(h: Hashes, v: World, p: seq<string>, w: World, q: seq<string>)
    requires CollisionFree(h) && KindsPrinted(v) && KindsPrinted(w)
    requires Computable(h, v, p) && Computable(h, w, q)
    requires FingerprintOf(h, v, p) == FingerprintOf(h, w, q)
    ensures p == q && forall path :: Selected(v, p, path) <==> Selected(w, q, path)
    ensures forall path :: Selected(v, p, path) ==> Observed(v, path) == Observed(w, path)
  {
    hide Relevant, IndexModes, Records, FingerprintOf, Computable, KindsPrinted, CollisionFree, Selected, Observed;
    SameStreams(h, v, p, w, q);
    var a, b := Relevant(v, p), Relevant(w, q);
    SameLength(h, v, w, p);
    forall i | 0 <= i < |a| ensures a[i] == b[i] && Observed(v, a[i]) == Observed(w, a[i]) {
      SameRecords(h, v, p, w, i);
    }
    assert a == b;
    forall path ensures Selected(v, p, path) <==> Selected(w, q, path) {
      RelevantMeans(v, p, path);
      RelevantMeans(w, q, path);
    }
    forall path | Selected(v, p, path) ensures Observed(v, path) == Observed(w, path) {
      RelevantMeans(v, p, path);
      var i :| 0 <= i < |a| && a[i] == path;
    }
  }

  lemma SameLength(h: Hashes, v: World, w: World, p: seq<string>)
    requires Computable(h, v, p) && Computable(h, w, p)
    requires Records(h, v, IndexModes(v, p), Relevant(v, p)) == Records(h, w, IndexModes(w, p), Relevant(w, p))
    ensures |Relevant(v, p)| == |Relevant(w, p)|
  {
    hide Relevant, IndexModes;
    assert |Relevant(v, p)| == |Records(h, v, IndexModes(v, p), Relevant(v, p))|;
  }

  lemma {:induction false} GitlinksAre(index: seq<IndexEntry>, n: nat, e: IndexEntry)
    requires n <= |index| && e in index[..n] && e.mode == "160000"
    ensures e.path in Gitlinks(index, n)
  {
    assert index[..n] == index[..n - 1] + [index[n - 1]];
    if e != index[n - 1] { GitlinksAre(index, n - 1, e); }
  }

  /** When a fingerprint exists, no pattern matches a submodule or a path below one. */
  lemma SubmodulesStayOut(h: Hashes, w: World, patterns: seq<string>, pattern: string, e: IndexEntry, path: string)
    requires Computable(h, w, patterns) && pattern in patterns && e in w.index && e.mode == "160000"
    requires path == e.path || (e.path + "/" <= path) || (e.path != "" && e.path[|e.path| - 1] == '/' && e.path <= path)
    ensures !Match(Compile(Trim(pattern)), path)
  {
    hide PatternsOk, ListsFit, FilesFit, Relevant, Compile, Trim, Match, MayCoverGitlink, Gitlinks;
    assert w.index[..|w.index|] == w.index;
    GitlinksAre(w.index, |w.index|, e);
    assert !Covers(patterns, e.path);
    assert !MayCoverGitlink(pattern, Compile(Trim(pattern)), e.path);
    if Match(Compile(Trim(pattern)), path) {
      if path != e.path { assert Descendants(e.path) <= path; }
      GitlinkTestIsSound(pattern, e.path, path);
    }
  }
}
