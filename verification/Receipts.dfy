/** Evidence receipts: their contract and their signature
    (internal/evidence/store.go, internal/model/model.go). */
module Receipts {
  import opened Model
  import opened SegmentNames
  import opened Glob

  datatype Receipt = Receipt(
    schemaVersion: int,
    id: string,
    producer: string,
    checkId: string,
    argv: seq<string>,
    workingDirectory: string,
    startedAt: Time,
    finishedAt: Time,
    exitCode: int,
    verdict: Verdict,
    gitCommit: string,
    fingerprint: string,
    fileCount: int,
    stdoutSummary: string,
    stderrSummary: string,
    logPath: string,
    logDigest: string,
    version: string,
    error: string,
    signature: string,
    shownFresh: Option<bool>,
    staleReason: string)

  const PRODUCER := "beforedone.check"
  const SIGNATURE_PREFIX := "hmac-sha256:"
  const DIGEST_PREFIX := "sha256:"

  predicate SafeCharacter(c: char) {
    'a' <= c <= 'z' || 'A' <= c <= 'Z' || '0' <= c <= '9' || c == '-' || c == '_' || c == '.'
  }

  predicate SafeToken(value: string, limit: nat) {
    value != "" && |value| <= limit && forall i :: 0 <= i < |value| ==> SafeCharacter(value[i])
  }

  predicate ValidDigest(value: string) {
    DIGEST_PREFIX <= value && |value| == |DIGEST_PREFIX| + 64 && IsHex(value[|DIGEST_PREFIX|..])
  }

  predicate Inside(path: string) {
    (path != "" ==> path[0] != '/') && ".." !in Split(path, '/')
  }

  predicate ContractOk(r: Receipt) {
    && r.schemaVersion == SCHEMA_VERSION && r.producer == PRODUCER && r.verdict.Valid()
    && SafeToken(r.id, 256) && SafeToken(r.checkId, 64)
    && r.argv != [] && Trim(r.argv[0]) != "" && (forall arg <- r.argv :: '\0' !in arg)
    && r.startedAt != 0 && r.finishedAt != 0 && r.startedAt <= r.finishedAt
    && (r.verdict.Pass? ==> r.exitCode == 0 && r.error == "")
    && (r.verdict.Fail? ==> r.exitCode != 0)
    && ValidDigest(r.fingerprint) && ValidDigest(r.logDigest)
    && r.fileCount >= 0 && Trim(r.version) != ""
    && r.logPath != "" && Inside(r.workingDirectory) && Inside(r.logPath)
  }

  /** What the signature covers. */
  function Stripped(r: Receipt): Receipt {
    r.(signature := "", shownFresh := None, staleReason := "")
  }

  /** JSON encoding, HMAC-SHA256 under the repository's key, and hexadecimal. */
  datatype Signer = Signer(
    canonical: Receipt -> Bytes, mac: Bytes -> Bytes, hex: Bytes -> string, unhex: string -> Option<Bytes>)
  {
    function Mac(r: Receipt): Bytes { mac(canonical(Stripped(r))) }
    function Hex(b: Bytes): string { hex(b) }
    function Unhex(s: string): Option<Bytes> { unhex(s) }
  }

  ghost predicate SignerOk(s: Signer) {
    && (forall b :: s.Unhex(s.Hex(b)) == Some(b))
    && (forall r, t :: s.Mac(r) == s.Mac(t) ==> Stripped(r) == Stripped(t))
  }

  function Sign(s: Signer, r: Receipt): Option<Receipt> {
    if ContractOk(r) then Some(r.(signature := SIGNATURE_PREFIX + s.Hex(s.Mac(r)))) else None
  }

  predicate VerifySignature(s: Signer, r: Receipt) {
    && ContractOk(r)
    && SIGNATURE_PREFIX <= r.signature
    && s.Unhex(r.signature[|SIGNATURE_PREFIX|..]) == Some(s.Mac(r))
  }

  // ---------- The checks as they are carried out ----------

  method IsSafeToken(value: string, limit: nat) returns (ok: bool)
    ensures ok <==> SafeToken(value, limit)
  {
    if value == "" || |value| > limit { return false; }
    var i := 0;
    while i < |value|
      invariant 0 <= i <= |value| && forall k :: 0 <= k < i ==> SafeCharacter(value[k])
    {
      var c := value[i];
      if !('a' <= c <= 'z') && !('A' <= c <= 'Z') && !('0' <= c <= '9') && c != '-' && c != '_' && c != '.' {
        return false;
      }
      i := i + 1;
    }
    ok := true;
  }

  method IsDigest(value: string) returns (ok: bool)
    ensures ok <==> ValidDigest(value)
  {
    if |value| < 7 || value[..7] != "sha256:" { return false; }
    if |value| - 7 != 64 { return false; }
    var i := 7;
    while i < |value|
      invariant 7 <= i <= |value|
      invariant forall k :: 7 <= k < i ==> DigitValue(value[k]) < 16
    {
      if DigitValue(value[i]) >= 16 { return false; }
      i := i + 1;
    }
    ok := true;
  }

  method StaysInside(path: string) returns (ok: bool)
    ensures ok <==> Inside(path)
  {
    hide Split;
    if path != "" && path[0] == '/' { return false; }
    var parts := Split(path, '/');
    var i := 0;
    while i < |parts|
      invariant 0 <= i <= |parts|
      invariant ".." !in parts[..i]
    {
      if parts[i] == ".." { return false; }
      i := i + 1;
    }
    assert parts[..i] == parts;
    ok := true;
  }

  method NoNul(argv: seq<string>) returns (ok: bool)
    ensures ok <==> forall arg <- argv :: '\0' !in arg
  {
    var i := 0;
    while i < |argv|
      invariant 0 <= i <= |argv|
      invariant forall arg <- argv[..i] :: '\0' !in arg
    {
      if '\0' in argv[i] { return false; }
      i := i + 1;
    }
    assert argv[..i] == argv;
    ok := true;
  }

  /** What a receipt must satisfy before it is signed and whenever it is read. */
  method ValidateReceiptContract(r: Receipt) returns (ok: bool)
    ensures ok <==> ContractOk(r)
  {
    hide SafeToken, ValidDigest, Inside, Trim;
    if r.schemaVersion != 1 || r.producer != "beforedone.check" || r.verdict.OtherVerdict? { return false; }
    var idOk := IsSafeToken(r.id, 256);
    var checkOk := IsSafeToken(r.checkId, 64);
    if !idOk || !checkOk { return false; }
    if |r.argv| == 0 || Trim(r.argv[0]) == "" { return false; }
    var argvOk := NoNul(r.argv);
    if !argvOk { return false; }
    if r.startedAt == 0 || r.finishedAt == 0 || r.finishedAt < r.startedAt { return false; }
    if r.verdict == Pass && (r.exitCode != 0 || r.error != "") { return false; }
    if r.verdict == Fail && r.exitCode == 0 { return false; }
    var fingerprintOk := IsDigest(r.fingerprint);
    var logOk := IsDigest(r.logDigest);
    if !fingerprintOk || !logOk { return false; }
    if r.fileCount < 0 || Trim(r.version) == "" || r.logPath == "" { return false; }
    var directoryInside := StaysInside(r.workingDirectory);
    var logInside := StaysInside(r.logPath);
    ok := directoryInside && logInside;
  }

  method SignReceipt(s: Signer, r: Receipt) returns (signed: Option<Receipt>)
    ensures signed == Sign(s, r)
  {
    hide ContractOk;
    var ok := ValidateReceiptContract(r);
    if !ok { return None; }
    signed := Some(r.(signature := "hmac-sha256:" + s.hex(s.mac(s.canonical(Stripped(r))))));
  }

  method VerifyReceiptSignature(s: Signer, r: Receipt) returns (ok: bool)
    ensures ok <==> VerifySignature(s, r)
  {
    hide ContractOk;
    ok := ValidateReceiptContract(r);
    if !ok { return; }
    if |r.signature| < 12 || r.signature[..12] != "hmac-sha256:" { return false; }
    var want := s.unhex(r.signature[12..]);
    if want.None? { return false; }
    ok := want.value == s.mac(s.canonical(Stripped(r)));
  }

  // ---------- What a signature means ----------

  /** A signed receipt verifies, whatever its display fields say. */
  lemma SignedVerifies(s: Signer, r: Receipt, shown: Option<bool>, reason: string)
    requires SignerOk(s) && Sign(s, r).Some?
    ensures VerifySignature(s, Sign(s, r).value.(shownFresh := shown, staleReason := reason))
    ensures Stripped(Sign(s, r).value) == Stripped(r)
  {
    hide ContractOk;
    var x := Sign(s, r).value.(shownFresh := shown, staleReason := reason);
    ContractIgnoresDisplay(r, x);
    assert x.signature[|SIGNATURE_PREFIX|..] == s.Hex(s.Mac(r));
    assert Stripped(x) == Stripped(r);
  }

  lemma ContractIgnoresDisplay(r: Receipt, t: Receipt)
    requires Stripped(r) == Stripped(t)
    ensures ContractOk(r) <==> ContractOk(t)
  {
    hide SafeToken, ValidDigest, Inside, Trim;
    assert r == t.(signature := r.signature, shownFresh := r.shownFresh, staleReason := r.staleReason);
  }

  /** One signature stands for one content: no field it covers can be changed. */
  lemma SignatureBindsContent(s: Signer, r: Receipt, t: Receipt)
    requires SignerOk(s) && VerifySignature(s, r) && VerifySignature(s, t) && r.signature == t.signature
    ensures Stripped(r) == Stripped(t)
  {
    hide ContractOk;
  }
}
