/** The data types shared by every component (internal/model/model.go). Strings
    stand for byte strings, one `char` per byte. */
module Model {

  datatype Option<+T> = None | Some(value: T)

  datatype Result<+T, +E> = Ok(value: T) | Err(error: E)

  type Bytes = string

  /** A verdict read from a file may be any text. */
  datatype Verdict = Pass | Fail | Inconclusive | OtherVerdict(text: string)
  {
    predicate Valid() { !OtherVerdict? }
  }

  datatype EventType =
    | SessionStarted | PromptSubmitted | ToolStarted | ToolFinished | AgentStopping | SessionEnded
    | UnknownType(name: string)

  /** Nanoseconds; the zero time of the source is 0. */
  type Time = int

  datatype Event = Event(
    schemaVersion: int,
    id: string,
    occurredAt: Time,
    eventType: EventType,
    source: string,
    sessionId: string,
    turnId: string,
    cwd: string,
    toolName: string,
    exitCode: Option<int>,
    summary: string,
    attributes: map<string, string>)

  const SCHEMA_VERSION := 1

  /** The foreign functions the ledger depends on: the JSON encoder and decoder,
      the SHA-256 hex digest of a file, the claim file name of an event ID, and
      whether a text is only white space. */
  datatype Codec = Codec(
    encode: Event -> Option<Bytes>,
    decode: Bytes -> Option<Event>,
    digest: Bytes -> string,
    idKey: string -> string,
    blank: string -> bool)
  {
    function Encode(e: Event): Option<Bytes> { encode(e) }
    function Decode(raw: Bytes): Option<Event> { decode(raw) }
    function Digest(raw: Bytes): string { digest(raw) }
    function IdKey(id: string): string { idKey(id) }
    predicate Blank(text: string) { blank(text) }
  }

  const MAX_EVENT_ATTRIBUTES: nat := 256

  predicate AttributesFit(c: Codec, attributes: map<string, string>) {
    forall k <- attributes :: !c.Blank(k) && |k| <= 128 && |attributes[k]| <= 1024
  }

  /** The size limits of the fields that adapters fill in. */
  predicate FieldsFit(c: Codec, e: Event) {
    && |e.id| <= 256 && |e.source| <= 64 && |e.sessionId| <= 256 && |e.turnId| <= 256
    && |e.cwd| <= 1024 && |e.toolName| <= 256 && |e.summary| <= 20000
    && AttributesFit(c, e.attributes)
  }

  /** The durable contract of an event, besides its encoded size. */
  predicate WithinLimits(c: Codec, e: Event) {
    && e.schemaVersion == SCHEMA_VERSION && !c.Blank(e.id) && e.occurredAt != 0 && !e.eventType.UnknownType?
    && !c.Blank(e.source) && |e.attributes| <= MAX_EVENT_ATTRIBUTES
    && FieldsFit(c, e)
  }
}
