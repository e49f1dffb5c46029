/** JSON Lines records: what the writer encodes, the reader's line scanner returns. */
module Jsonl {
  import opened Model

  const MAX_EVENT_BYTES: nat := 0x10_0000
  const MAX_LEDGER_BYTES: nat := 64 * 0x10_0000

  /** The durable contract of one event, shared by writers and readers. */
  predicate ValidEvent(c: Codec, e: Event) {
    WithinLimits(c, e) && c.Encode(e).Some? && |c.Encode(e).value| <= MAX_EVENT_BYTES
  }

  /** The limits of the attributes, in any order. */
  method ValidateAttributes(c: Codec, attributes: map<string, string>) returns (ok: bool)
    ensures ok <==> |attributes| <= 256 && AttributesFit(c, attributes)
  {
    if |attributes| > 256 { return false; }
    var todo := attributes.Keys;
    while todo != {}
      invariant todo <= attributes.Keys
      invariant forall k <- attributes :: k in todo || (!c.Blank(k) && |k| <= 128 && |attributes[k]| <= 1024)
    {
      var key :| key in todo;
      if c.blank(key) || |key| > 128 { return false; }
      if |attributes[key]| > 1024 { return false; }
      todo := todo - {key};
    }
    ok := true;
  }

  /** The contract as writers and readers check it. */
  method ValidateEvent(c: Codec, e: Event) returns (ok: bool)
    ensures ok <==> ValidEvent(c, e)
  {
    hide AttributesFit;
    if e.schemaVersion != 1 || c.blank(e.id) || |e.id| > 256 || e.occurredAt == 0 || e.eventType.UnknownType? {
      return false;
    }
    if c.blank(e.source) || |e.source| > 64 || |e.sessionId| > 256 || |e.turnId| > 256 || |e.cwd| > 1024
        || |e.toolName| > 256 || |e.summary| > 20000 {
      return false;
    }
    ok := ValidateAttributes(c, e.attributes);
    if !ok { return; }
    var data := c.encode(e);
    ok := data.Some? && |data.value| <= 1_048_576;
  }

  /** Index of the first newline, or the length when there is none. */
  function FirstNewline(raw: Bytes): (k: nat)
    ensures k <= |raw|
    ensures k < |raw| ==> raw[k] == '\n'
    ensures forall i :: 0 <= i < k ==> raw[i] != '\n'
  {
    if raw == [] || raw[0] == '\n' then 0 else 1 + FirstNewline(raw[1..])
  }

  /** The lines of `raw`, each without its newline. */
  function Lines(raw: Bytes): seq<Bytes>
    decreases |raw|
  {
    if raw == [] then []
    else
      var k := FirstNewline(raw);
      if k == |raw| then [raw] else [raw[..k]] + Lines(raw[k + 1..])
  }

  lemma {:induction false} FewerLines(raw: Bytes)
    ensures |Lines(raw)| <= |raw|
    decreases |raw|
  {
    if raw != [] && FirstNewline(raw) < |raw| { FewerLines(raw[FirstNewline(raw) + 1..]); }
  }

  /** Go's line scanner also drops one carriage return before the newline. */
  function DropCR(line: Bytes): Bytes {
    if line != [] && line[|line| - 1] == '\r' then line[..|line| - 1] else line
  }

  function DecodeLine(c: Codec, line: Bytes): Option<Event> {
    c.Decode(DropCR(line))
  }

  ghost function Ids(events: seq<Event>): set<string> {
    set e <- events :: e.id
  }

  /** No two events share an ID. */
  ghost predicate DistinctIds(events: seq<Event>) {
    |Ids(events)| == |events|
  }

  predicate GoodLine(c: Codec, line: Bytes) {
    && |line| <= MAX_EVENT_BYTES
    && DecodeLine(c, line).Some?
    && ValidEvent(c, DecodeLine(c, line).value)
  }

  /** What the first `n` lines of a file mean: their events in order, or nothing
      when any of them is too long, undecodable, invalid or repeats an ID. */
  ghost function Parse(c: Codec, lines: seq<Bytes>, n: nat): (r: Option<seq<Event>>)
    requires n <= |lines|
    ensures r.Some? ==> |r.value| == n
  {
    if n == 0 then Some([])
    else
      var before := Parse(c, lines, n - 1);
      if before.None? || !GoodLine(c, lines[n - 1]) then None
      else
        var e := DecodeLine(c, lines[n - 1]).value;
        if e.id in Ids(before.value) then None else Some(before.value + [e])
  }

  /** What a JSONL file means. */
  ghost function ReadJsonl(c: Codec, raw: Bytes): (r: Option<seq<Event>>)
    ensures r.Some? ==> DistinctIds(r.value)
    ensures r.Some? && raw != [] ==> r.value != []
    ensures r.Some? ==> |raw| <= MAX_LEDGER_BYTES
  {
    if |raw| > MAX_LEDGER_BYTES || (raw != [] && raw[|raw| - 1] != '\n') then None
    else
      ParseDistinct(c, Lines(raw), |Lines(raw)|);
      Parse(c, Lines(raw), |Lines(raw)|)
  }

  datatype ReadError = TooLarge | IncompleteRecord | LineTooLong | Undecodable | Invalid | DuplicateId

  /** The scanner loop of the source. */
  method ReadEventJsonl(c: Codec, raw: Bytes) returns (r: Result<seq<Event>, ReadError>)
    ensures r.Ok? <==> ReadJsonl(c, raw).Some?
    ensures r.Ok? ==> r.value == ReadJsonl(c, raw).value
  {
    hide DistinctIds, Lines, FirstNewline, WithinLimits, Ids, ValidEvent, Parse;
    if |raw| > 67_108_864 { return Err(TooLarge); }
    if |raw| > 0 && raw[|raw| - 1] != '\n' { return Err(IncompleteRecord); }
    ghost var lines := Lines(raw);
    var rest := raw;
    var events: seq<Event> := [];
    var seenIds: set<string> := {};
    ghost var n := 0;
    NoLines();
    while rest != []
      invariant rest != [] ==> rest[|rest| - 1] == '\n'
      invariant n <= |lines| && Lines(rest) == lines[n..] && (rest == [] ==> n == |lines|)
      invariant Parse(c, lines, n) == Some(events)
      invariant seenIds == Ids(events)
      decreases |rest|
    {
      var k := FirstNewline(rest);
      NextLine(lines, n, rest);
      ParseNext(c, lines, n, events);
      var line := rest[..k];
      NoneSpreads(c, lines, n + 1, |lines|);
      if |line| > 1_048_576 { return Err(LineTooLong); }
      if line != [] && line[|line| - 1] == '\r' { line := line[..|line| - 1]; }
      var decoded := c.decode(line);
      if decoded.None? { return Err(Undecodable); }
      var valid := ValidateEvent(c, decoded.value);
      if !valid { return Err(Invalid); }
      if decoded.value.id in seenIds { return Err(DuplicateId); }
      DistinctAppend(events, decoded.value);
      events := events + [decoded.value];
      seenIds := seenIds + {decoded.value.id};
      rest := rest[k + 1..];
      n := n + 1;
    }
    r := Ok(events);
  }

  lemma NoLines()
    ensures Lines([]) == [] && Ids([]) == {} && DistinctIds([])
    ensures forall c, lines :: Parse(c, lines, 0) == Some([])
  {
    assert Ids([]) == {};
  }

  lemma ParseNext(c: Codec, lines: seq<Bytes>, n: nat, events: seq<Event>)
    requires n < |lines| && Parse(c, lines, n) == Some(events)
    ensures Parse(c, lines, n + 1) ==
      if !GoodLine(c, lines[n]) || DecodeLine(c, lines[n]).value.id in Ids(events) then None
      else Some(events + [DecodeLine(c, lines[n]).value])
  {
    hide GoodLine, Ids;
  }

  /** What the scanner consumes is the next line. */
  lemma NextLine(lines: seq<Bytes>, n: nat, rest: Bytes)
    requires n <= |lines| && Lines(rest) == lines[n..] && rest != [] && rest[|rest| - 1] == '\n'
    ensures var k := FirstNewline(rest);
            && k < |rest| && n < |lines| && lines[n] == rest[..k] && Lines(rest[k + 1..]) == lines[n + 1..]
            && (rest[k + 1..] == [] ==> n + 1 == |lines|)
            && (rest[k + 1..] != [] ==> rest[k + 1..][|rest[k + 1..]| - 1] == '\n')
  {
    hide Lines, FirstNewline;
    var k := FirstNewline(rest);
    assert k < |rest|;
    LinesStep(rest);
    NoLines();
    assert lines[n..] == [rest[..k]] + Lines(rest[k + 1..]);
    assert lines[n] == lines[n..][0];
    assert lines[n + 1..] == lines[n..][1..];
  }

  lemma LinesStep(raw: Bytes)
    requires raw != [] && FirstNewline(raw) < |raw|
    ensures Lines(raw) == [raw[..FirstNewline(raw)]] + Lines(raw[FirstNewline(raw) + 1..])
  {
    hide FirstNewline;
  }

  lemma {:induction false} ParseDistinct(c: Codec, lines: seq<Bytes>, n: nat)
    requires n <= |lines|
    ensures Parse(c, lines, n).Some? ==> DistinctIds(Parse(c, lines, n).value)
  {
    if n == 0 {
      assert Ids([]) == {};
    } else {
      hide DistinctIds;
      ParseDistinct(c, lines, n - 1);
      if Parse(c, lines, n).Some? {
        DistinctAppend(Parse(c, lines, n - 1).value, DecodeLine(c, lines[n - 1]).value);
      }
    }
  }

  lemma {:induction false} ParseValid(c: Codec, lines: seq<Bytes>, n: nat)
    requires n <= |lines|
    ensures Parse(c, lines, n).Some? ==> forall e <- Parse(c, lines, n).value :: ValidEvent(c, e)
  {
    if n > 0 { ParseValid(c, lines, n - 1); }
  }

  /** One bad line makes the whole file unreadable. */
  lemma {:induction false} NoneSpreads(c: Codec, lines: seq<Bytes>, n: nat, m: nat)
    requires n <= m <= |lines|
    ensures Parse(c, lines, n).None? ==> Parse(c, lines, m).None?
  {
    hide DistinctIds, Ids;
    if n < m { NoneSpreads(c, lines, n, m - 1); }
  }

  lemma DistinctAppend(events: seq<Event>, e: Event)
    ensures DistinctIds(events + [e]) <==> DistinctIds(events) && e.id !in Ids(events)
    ensures Ids(events + [e]) == Ids(events) + {e.id}
  {
    IdsOfConcat(events, [e]);
    assert Ids([e]) == {e.id};
    AtMostOneIdEach(events);
  }

  lemma {:induction false} AtMostOneIdEach(events: seq<Event>)
    ensures |Ids(events)| <= |events|
  {
    if events != [] {
      var n := |events| - 1;
      AtMostOneIdEach(events[..n]);
      assert events == events[..n] + [events[n]];
      IdsOfConcat(events[..n], [events[n]]);
      assert Ids([events[n]]) == {events[n].id};
    }
  }

  lemma {:induction false} DistinctPrefix(events: seq<Event>, n: nat)
    requires DistinctIds(events) && n <= |events|
    ensures DistinctIds(events[..n])
  {
    if n < |events| {
      var m := |events| - 1;
      assert events == events[..m] + [events[m]];
      DistinctAppend(events[..m], events[m]);
      DistinctPrefix(events[..m], n);
      assert events[..m][..n] == events[..n];
    } else {
      assert events[..n] == events;
    }
  }

  lemma IdsOfConcat(a: seq<Event>, b: seq<Event>)
    ensures Ids(a + b) == Ids(a) + Ids(b)
  {
    forall x | x in Ids(a) + Ids(b) ensures x in Ids(a + b) {
      if x in Ids(a) {
        var y :| y in a && y.id == x;
        assert y in a + b;
      } else {
        var y :| y in b && y.id == x;
        assert y in a + b;
      }
    }
  }

  /** The bytes of a batch: each encoded event followed by a newline. */
  function EncodeAll(c: Codec, events: seq<Event>): Bytes
    requires forall e <- events :: c.Encode(e).Some?
  {
    if events == [] then [] else c.Encode(events[0]).value + ['\n'] + EncodeAll(c, events[1..])
  }

  /** What the ledger needs of the JSON codec for one event. */
  predicate Faithful(c: Codec, e: Event) {
    c.Encode(e).Some? ==>
      && c.Decode(c.Encode(e).value) == Some(e)
      && '\n' !in c.Encode(e).value
      && (c.Encode(e).value == [] || c.Encode(e).value[|c.Encode(e).value| - 1] != '\r')
  }

  ghost predicate Storable(c: Codec, events: seq<Event>) {
    && (forall e <- events :: ValidEvent(c, e))
    && DistinctIds(events)
    && |EncodeAll(c, events)| <= MAX_LEDGER_BYTES
  }

  datatype BatchError = InvalidEvent | DuplicateInBatch | BatchTooLarge

  lemma NothingEncoded(c: Codec)
    ensures EncodeAll(c, []) == [] && Ids([]) == {} && DistinctIds([])
  {
    assert Ids([]) == {};
  }

  /** The writer's encoding loop, before it takes the lock. */
  method EncodeBatch(c: Codec, events: seq<Event>) returns (r: Result<Bytes, BatchError>)
    ensures r.Ok? <==> Storable(c, events)
    ensures r.Ok? ==> r.value == EncodeAll(c, events)
  {
    hide DistinctIds, Ids, WithinLimits, EncodeAll;
    NothingEncoded(c);
    var encoded: Bytes := [];
    var incoming: set<string> := {};
    var i := 0;
    while i < |events|
      invariant 0 <= i <= |events|
      invariant forall e <- events[..i] :: ValidEvent(c, e)
      invariant DistinctIds(events[..i]) && incoming == Ids(events[..i])
      invariant encoded == EncodeAll(c, events[..i])
    {
      var event := events[i];
      assert events[..i + 1] == events[..i] + [event];
      DistinctAppend(events[..i], event);
      var valid := ValidateEvent(c, event);
      if !valid { return Err(InvalidEvent); }
      if event.id in incoming {
        if DistinctIds(events) { DistinctPrefix(events, i + 1); }
        return Err(DuplicateInBatch);
      }
      incoming := incoming + {event.id};
      EncodeAllAppend(c, events[..i], event);
      encoded := encoded + c.encode(event).value + ['\n'];
      i := i + 1;
    }
    assert events[..i] == events;
    if |encoded| > 67_108_864 { return Err(BatchTooLarge); }
    r := Ok(encoded);
  }

  lemma {:induction false} EncodeAllAppend(c: Codec, events: seq<Event>, e: Event)
    requires forall x <- events :: c.Encode(x).Some?
    requires c.Encode(e).Some?
    ensures EncodeAll(c, events + [e]) == EncodeAll(c, events) + c.Encode(e).value + ['\n']
  {
    if events == [] {
      assert [] + [e] == [e];
    } else {
      assert (events + [e])[1..] == events[1..] + [e];
      EncodeAllAppend(c, events[1..], e);
    }
  }

  lemma FirstNewlineOf(line: Bytes, rest: Bytes)
    requires '\n' !in line
    ensures FirstNewline(line + ['\n'] + rest) == |line|
  {
    var all := line + ['\n'] + rest;
    assert all[|line|] == '\n';
    assert forall i :: 0 <= i < |line| ==> all[i] == line[i];
  }

  /** Splitting an encoded batch gives back one line per event. */
  lemma {:induction false} LinesOfBatch(c: Codec, events: seq<Event>)
    requires forall e <- events :: c.Encode(e).Some? && Faithful(c, e)
    ensures |Lines(EncodeAll(c, events))| == |events|
    ensures forall i :: 0 <= i < |events| ==> Lines(EncodeAll(c, events))[i] == c.Encode(events[i]).value
    ensures events != [] ==> EncodeAll(c, events) != [] && EncodeAll(c, events)[|EncodeAll(c, events)| - 1] == '\n'
  {
    hide Lines, FirstNewline;
    NoLines();
    if events != [] {
      var line := c.Encode(events[0]).value;
      var rest := EncodeAll(c, events[1..]);
      var all := EncodeAll(c, events);
      FirstNewlineOf(line, rest);
      LinesStep(all);
      assert all[..|line|] == line;
      assert all[|line| + 1..] == rest;
      LinesOfBatch(c, events[1..]);
    }
  }

  lemma {:induction false} ParseEncoded(c: Codec, events: seq<Event>, lines: seq<Bytes>, n: nat)
    requires n <= |lines| == |events| && DistinctIds(events[..n])
    requires forall i :: 0 <= i < |events| ==>
      ValidEvent(c, events[i]) && Faithful(c, events[i]) && lines[i] == c.Encode(events[i]).value
    ensures Parse(c, lines, n) == Some(events[..n])
  {
    hide DistinctIds, Ids;
    if n == 0 {
    } else {
      assert events[..n] == events[..n - 1] + [events[n - 1]];
      DistinctAppend(events[..n - 1], events[n - 1]);
      ParseEncoded(c, events, lines, n - 1);
    }
  }

  /** Whatever the writer accepts, the reader returns unchanged. */
  lemma BatchRoundTrip(c: Codec, events: seq<Event>)
    requires Storable(c, events)
    requires forall e <- events :: Faithful(c, e)
    ensures ReadJsonl(c, EncodeAll(c, events)) == Some(events)
  {
    hide DistinctIds, Ids, Lines, EncodeAll, Parse, WithinLimits;
    NothingEncoded(c);
    LinesOfBatch(c, events);
    assert events[..|events|] == events;
    ParseEncoded(c, events, Lines(EncodeAll(c, events)), |events|);
  }
}
