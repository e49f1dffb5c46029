/** Bounding and redacting events before they are stored
    (internal/hooks/codex.go), so that they meet the limits every writer and
    reader of the event store enforces. */
module Sanitize {
  import opened Model

  /** Redaction, trimming of white space, and the names that identify secrets. */
  datatype Policy = Policy(redact: string -> string, trim: string -> string, sensitive: string -> bool,
      hash: string -> string)
  {
    function Redacted(value: string): string { redact(value) }
    function Trimmed(value: string): string { trim(value) }
    predicate Sensitive(name: string) { sensitive(name) }
    function Hash(value: string): string { hash(value) }
  }

  /** Trimming removes every blank text entirely, and the short hash has 32 digits. */
  ghost predicate PolicyOk(p: Policy, c: Codec) {
    && (forall s :: c.Blank(s) <==> p.Trimmed(s) == "")
    && (forall s :: |p.Trimmed(s)| <= |s| && p.Trimmed(p.Trimmed(s)) == p.Trimmed(s))
    && (forall s :: |p.Hash(s)| == 32)
    && (forall prefix, s :: prefix in IDENTIFIERS ==> !c.Blank(RedactedIdentifier(p, prefix, s)))
  }

  const IDENTIFIERS := {"event", "session", "turn", "attribute"}

  /** The three bytes of an ellipsis. */
  const ELLIPSIS := "\U{00E2}\U{0080}\U{00A6}"
  const REDACTED_SUFFIX := "-redacted-"

  /** A byte that does not continue a multi-byte character. */
  predicate RuneStart(b: char) { !('\U{0080}' <= b <= '\U{00BF}') }

  /** The last place at or before `from` where a character starts. */
  function CutAt(value: string, from: nat): (cut: nat)
    requires from < |value|
    ensures cut <= from
    ensures cut > 0 ==> RuneStart(value[cut])
    ensures forall k :: cut < k <= from ==> !RuneStart(value[k])
  {
    if from == 0 || RuneStart(value[from]) then from else CutAt(value, from - 1)
  }

  /** At most `limit` bytes, cut between characters. */
  function Bounded(value: string, limit: nat): (r: string)
    requires limit >= 3
    ensures |r| <= limit
  {
    if |value| <= limit then value else value[..CutAt(value, limit - 3)] + ELLIPSIS
  }

  method Clean(p: Policy, value: string, limit: nat) returns (r: string)
    requires limit >= 3
    ensures r == Bounded(p.Trimmed(p.Redacted(value)), limit) && |r| <= limit
  {
    r := p.Trimmed(p.Redacted(value));
    if |r| > limit {
      var cutoff := limit - 3;
      while cutoff > 0 && 0x80 <= r[cutoff] as int < 0xC0
        invariant 0 <= cutoff <= limit - 3
        invariant CutAt(r, limit - 3) == CutAt(r, cutoff)
      {
        cutoff := cutoff - 1;
      }
      r := r[..cutoff] + ELLIPSIS;
    }
  }

  function RedactedIdentifier(p: Policy, prefix: string, value: string): string {
    prefix + REDACTED_SUFFIX + p.Hash(value)
  }

  /** An identifier that redaction would change is replaced by its hash. */
  function Identifier(p: Policy, value: string, limit: nat, prefix: string): string
    requires limit >= 3
  {
    var original := p.Trimmed(value);
    if original == "" then ""
    else if Bounded(p.Trimmed(p.Redacted(original)), limit) == original then original
    else RedactedIdentifier(p, prefix, original)
  }

  method CleanIdentifier(p: Policy, value: string, limit: nat, prefix: string) returns (r: string)
    requires limit >= 3
    ensures r == Identifier(p, value, limit, prefix)
  {
    var original := p.Trimmed(value);
    if original == "" { return ""; }
    var cleaned := Clean(p, original, limit);
    r := if cleaned != original then RedactedIdentifier(p, prefix, original) else cleaned;
  }

  lemma IdentifierFits(p: Policy, c: Codec, value: string, limit: nat, prefix: string)
    requires PolicyOk(p, c) && limit >= 64 && |prefix| <= 9
    ensures |Identifier(p, value, limit, prefix)| <= limit
  {
  }

  /** The name an attribute is stored under, if it is stored at all. */
  function AttributeName(p: Policy, key: string): Option<string> {
    var original := p.Trimmed(key);
    var cleaned := Bounded(p.Trimmed(p.Redacted(original)), 128);
    if cleaned == "" then None
    else if cleaned != original then Some(RedactedIdentifier(p, "attribute", original))
    else Some(cleaned)
  }

  /** The value stored for it: that of a sensitive name is never kept. */
  function AttributeValue(p: Policy, key: string, value: string): string {
    if p.Sensitive(p.Trimmed(key)) then "[REDACTED]" else Bounded(p.Trimmed(p.Redacted(value)), 1024)
  }

  lemma AttributeFits(p: Policy, c: Codec, key: string, value: string)
    requires PolicyOk(p, c)
    ensures |AttributeValue(p, key, value)| <= 1024
    ensures AttributeName(p, key).Some? ==>
              |AttributeName(p, key).value| <= 128 && !c.Blank(AttributeName(p, key).value)
  {
    var original := p.Trimmed(key);
    assert "attribute" in IDENTIFIERS;
  }

  /** `k` was stored for some attribute of the original event. */
  predicate StoredFor(p: Policy, before: map<string, string>, k: string, v: string) {
    exists key <- before :: AttributeName(p, key) == Some(k) && AttributeValue(p, key, before[key]) == v
  }

  /** An attribute is left out when nothing of its name remains. */
  lemma NameAndValue(p: Policy, key: string, value: string)
    ensures var original := p.trim(key);
            var cleaned := Bounded(p.Trimmed(p.Redacted(original)), 128);
            var name := if cleaned != original then "attribute-redacted-" + p.hash(original) else cleaned;
            && AttributeName(p, key) == (if cleaned == "" then None else Some(name))
            && AttributeValue(p, key, value) ==
               (if p.sensitive(original) then "[REDACTED]" else Bounded(p.Trimmed(p.Redacted(value)), 1024))
  {
    hide Bounded;
    assert "attribute" + REDACTED_SUFFIX == "attribute-redacted-";
  }

  /** Attributes in any order, as Go iterates over maps. */
  method SanitizeAttributes(p: Policy, before: map<string, string>) returns (after: map<string, string>)
    ensures forall k <- after :: StoredFor(p, before, k, after[k])
    ensures forall key <- before :: AttributeName(p, key).Some? ==> AttributeName(p, key).value in after
  {
    hide AttributeName, AttributeValue;
    after := map[];
    var todo := before.Keys;
    while todo != {}
      invariant todo <= before.Keys
      invariant forall k <- after :: StoredFor(p, before, k, after[k])
      invariant forall key <- before ::
                  key in todo || (AttributeName(p, key).Some? ==> AttributeName(p, key).value in after)
    {
      var key :| key in todo;
      todo := todo - {key};
      var original := p.trim(key);
      var name := Clean(p, original, 128);
      if name != "" {
        if name != original { name := "attribute-redacted-" + p.hash(original); }
        var value := Clean(p, before[key], 1024);
        if p.sensitive(original) { value := "[REDACTED]"; }
        NameAndValue(p, key, before[key]);
        after := after[name := value];
        assert StoredFor(p, before, name, after[name]);
      } else {
        NameAndValue(p, key, before[key]);
      }
    }
  }

  /** A sanitized event meets every size limit of the durable contract, and what
      a sensitive name was assigned is gone. */
  method SanitizeEvent(p: Policy, c: Codec, event: Event) returns (r: Event)
    requires PolicyOk(p, c)
    ensures FieldsFit(c, r)
    ensures forall k <- r.attributes :: StoredFor(p, event.attributes, k, r.attributes[k])
    ensures r.id == Identifier(p, event.id, 256, "event")
    ensures r.sessionId == Identifier(p, event.sessionId, 256, "session")
    ensures r.turnId == Identifier(p, event.turnId, 256, "turn")
    ensures (r.schemaVersion, r.occurredAt, r.eventType, r.exitCode) == (event.schemaVersion, event.occurredAt,
        event.eventType, event.exitCode)
  {
    hide PolicyOk, Identifier, StoredFor, Bounded;
    var id := CleanIdentifier(p, event.id, 256, "event");
    var source := Clean(p, event.source, 64);
    var sessionId := CleanIdentifier(p, event.sessionId, 256, "session");
    var turnId := CleanIdentifier(p, event.turnId, 256, "turn");
    var cwd := Clean(p, event.cwd, 1024);
    var toolName := Clean(p, event.toolName, 256);
    var summary := Clean(p, event.summary, 20000);
    var attributes := SanitizeAttributes(p, event.attributes);
    r := event.(id := id, source := source, sessionId := sessionId, turnId := turnId, cwd := cwd, toolName := toolName,
      summary := summary, attributes := attributes);
    IdentifierFits(p, c, event.id, 256, "event");
    IdentifierFits(p, c, event.sessionId, 256, "session");
    IdentifierFits(p, c, event.turnId, 256, "turn");
    StoredFits(p, c, event.attributes, attributes);
  }

  lemma StoredFits(p: Policy, c: Codec, before: map<string, string>, after: map<string, string>)
    requires PolicyOk(p, c) && forall k <- after :: StoredFor(p, before, k, after[k])
    ensures AttributesFit(c, after)
  {
    hide PolicyOk, AttributeName, AttributeValue;
    forall k <- after ensures !c.Blank(k) && |k| <= 128 && |after[k]| <= 1024 {
      var key :| key in before && AttributeName(p, key) == Some(k) && AttributeValue(p, key, before[key]) == after[k];
      AttributeFits(p, c, key, before[key]);
    }
  }
}
