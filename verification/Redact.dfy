/** Redacting credential assignments (internal/redact/redact.go): finding
    sensitive names, the end of what is assigned to them, and the rewriting.
    Text is a sequence of bytes, one `char` each. */
module Redact {
  import opened Model
  import opened SegmentNames

  const MARKER := "[REDACTED]"
  const AUTHORIZATION := "authorization"

  /** Decoding of multi-byte characters, and the characters that are control
      (Cc) or format (Cf) characters. */
  datatype Unicode = Unicode(decode: string -> (int, nat), ignorable: int -> bool)
  {
    /** The character at the start of a non-empty text and its width in bytes. */
    function Decode(s: string): (r: (int, nat))
      requires s != []
      ensures 1 <= r.1 <= |s|
    {
      if s[0] < '\U{0080}' then (s[0] as int, 1) else DecodeRune(s)
    }

    /** A byte that starts no character is one of its own. */
    function DecodeRune(s: string): (r: (int, nat))
      requires s != []
      ensures 1 <= r.1 <= |s|
    {
      var (rune, width) := decode(s);
      if 1 <= width <= |s| then (rune, width) else (0xFFFD, 1)
    }

    predicate Ignorable(rune: int) { ignorable(rune) }
  }

  // ---------- Characters ----------

  predicate IsSpace(c: char) { c == ' ' || c == '\t' || c == '\r' || c == '\n' }

  predicate IsIdentifierByte(c: char) {
    'a' <= c <= 'z' || 'A' <= c <= 'Z' || '0' <= c <= '9' || c == '_' || c == '-'
  }

  function ToLower(c: char): char {
    if 'A' <= c <= 'Z' then ((c as int) + 32) as char else c
  }

  function Lower(s: string): (r: string)
    ensures |r| == |s|
  {
    seq(|s|, i requires 0 <= i < |s| => ToLower(s[i]))
  }

  /** The first index from `i` on whose character does not satisfy `p`. */
  function SkipWhile(s: string, i: nat, p: char -> bool): (k: nat)
    requires i <= |s|
    ensures i <= k <= |s| && (forall j :: i <= j < k ==> p(s[j])) && (k < |s| ==> !p(s[k]))
    decreases |s| - i
  {
    if i == |s| || !p(s[i]) then i else SkipWhile(s, i + 1, p)
  }

  // ---------- Sensitive names ----------

  function Compact(s: string): string {
    if s == [] then [] else (if s[0] == '_' || s[0] == '-' then [] else [s[0]]) + Compact(s[1..])
  }

  predicate Contains(s: string, part: string) {
    exists i :: 0 <= i <= |s| && part <= s[i..]
  }

  const SENSITIVE := ["apikey", "accesskey", "accesstoken", "refreshtoken", "token", "password", "passwd",
                      "secret", "authorization", "privatekey", "credential"]

  predicate IsSensitiveName(name: string) {
    var compact := Compact(Lower(name));
    (exists marker <- SENSITIVE :: Contains(compact, marker)) || HasSuffix(compact, "auth")
  }

  method SensitiveName(value: string) returns (sensitive: bool)
    ensures sensitive <==> IsSensitiveName(value)
  {
    hide Compact, Lower, Contains;
    var compact := Compact(Lower(value));
    var markers := ["apikey", "accesskey", "accesstoken", "refreshtoken", "token", "password", "passwd",
                    "secret", "authorization", "privatekey", "credential"];
    var i := 0;
    while i < |markers|
      invariant 0 <= i <= |markers|
      invariant forall k :: 0 <= k < i ==> !Contains(compact, markers[k])
    {
      if Contains(compact, markers[i]) {
        assert markers[i] in SENSITIVE;
        return true;
      }
      i := i + 1;
    }
    var n := |compact|;
    sensitive := n >= 4 && compact[n - 4..] == "auth";
  }

  // ---------- Which names are sensitive ----------

  predicate IsLetterOf(c: char, letter: char) {
    c == letter || ('a' <= letter <= 'z' && c as int == letter as int - 32)
  }

  /** `text` is the word in any letter case, with dashes and underscores anywhere. */
  predicate Writes(text: string, word: string) {
    if text == "" then word == ""
    else if text[0] == '_' || text[0] == '-' then Writes(text[1..], word)
    else word != "" && IsLetterOf(text[0], word[0]) && Writes(text[1..], word[1..])
  }

  /** A word of small letters. */
  predicate IsWord(word: string) {
    forall i :: 0 <= i < |word| ==> 'a' <= word[i] <= 'z'
  }

  lemma {:induction false} WritesMeans(text: string, word: string)
    requires IsWord(word)
    ensures Writes(text, word) <==> Compact(Lower(text)) == word
  {
    if text != "" {
      LowerTail(text);
      if text[0] == '_' || text[0] == '-' {
        WritesMeans(text[1..], word);
      } else if word != "" {
        WritesMeans(text[1..], word[1..]);
        assert word == [word[0]] + word[1..];
      }
    }
  }

  lemma LowerTail(text: string)
    requires text != ""
    ensures Lower(text)[1..] == Lower(text[1..]) && Lower(text)[0] == ToLower(text[0])
    ensures Compact(Lower(text)) == (if text[0] == '_' || text[0] == '-' then [] else [ToLower(text[0])])
                                    + Compact(Lower(text[1..]))
  {
    assert Lower(text)[1..] == Lower(text[1..]);
  }

  lemma {:induction false} CompactConcat(a: string, b: string)
    ensures Compact(Lower(a + b)) == Compact(Lower(a)) + Compact(Lower(b))
  {
    hide Compact, Lower;
    NothingCompact();
    if a == "" {
      assert a + b == b;
    } else {
      LowerTail(a);
      LowerTail(a + b);
      assert (a + b)[1..] == a[1..] + b;
      CompactConcat(a[1..], b);
    }
  }

  /** Where the result can be cut, the name can be cut. */
  lemma {:induction false} CompactCut(name: string, k: nat) returns (i: nat)
    requires k <= |Compact(Lower(name))|
    ensures i <= |name| && Compact(Lower(name[..i])) == Compact(Lower(name))[..k]
    ensures Compact(Lower(name[i..])) == Compact(Lower(name))[k..]
  {
    i := 0;
    if k == 0 {
      assert name[..0] == "" && name[0..] == name;
    } else {
      LowerTail(name);
      var skip := name[0] == '_' || name[0] == '-';
      var n := CompactCut(name[1..], if skip then k else k - 1);
      i := n + 1;
      assert name[..i][1..] == name[1..][..n] && name[i..] == name[1..][n..];
      LowerTail(name[..i]);
    }
  }

  /** The name has a part, up to its end if `last`, that writes the word. */
  ghost predicate HasPart(name: string, word: string, last: bool) {
    exists i: nat, j: nat :: i <= j <= |name| && (last ==> j == |name|) && Writes(name[i..j], word)
  }

  lemma ContainsPart(name: string, word: string)
    requires IsWord(word)
    ensures Contains(Compact(Lower(name)), word) <==> HasPart(name, word, false)
  {
    hide Compact, Lower, Writes;
    var c := Compact(Lower(name));
    if Contains(c, word) {
      var k :| 0 <= k <= |c| && word <= c[k..];
      var i := CompactCut(name, k);
      var n := CompactCut(name[i..], |word|);
      assert name[i..][..n] == name[i..i + n];
      WritesMeans(name[i..i + n], word);
    }
    if i: nat, j: nat :| i <= j <= |name| && Writes(name[i..j], word) {
      WritesMeans(name[i..j], word);
      PartsOf(name, i, j);
      var k := |Compact(Lower(name[..i]))|;
      assert word <= c[k..];
    }
  }

  lemma PartsOf(name: string, i: nat, j: nat)
    requires i <= j <= |name|
    ensures Compact(Lower(name)) == Compact(Lower(name[..i])) + (Compact(Lower(name[i..j])) + Compact(Lower(name[j..])))
  {
    hide Compact, Lower;
    assert name == name[..i] + name[i..] && name[i..] == name[i..j] + name[j..];
    CompactConcat(name[..i], name[i..]);
    CompactConcat(name[i..j], name[j..]);
  }

  lemma SuffixPart(name: string, word: string)
    requires IsWord(word)
    ensures HasSuffix(Compact(Lower(name)), word) <==> HasPart(name, word, true)
  {
    hide Compact, Lower, Writes;
    var c := Compact(Lower(name));
    if HasSuffix(c, word) {
      var i := CompactCut(name, |c| - |word|);
      assert name[i..|name|] == name[i..];
      WritesMeans(name[i..], word);
    }
    if i: nat, j: nat :| i <= j <= |name| && j == |name| && Writes(name[i..j], word) {
      WritesMeans(name[i..j], word);
      PartsOf(name, i, j);
      assert name[j..] == "" && Compact(Lower("")) == "" by { NothingCompact(); }
      assert c == Compact(Lower(name[..i])) + word;
    }
  }

  lemma NothingCompact()
    ensures Compact(Lower("")) == ""
  {
  }

  lemma MarkersAreWords()
    ensures IsWord("auth") && forall m <- SENSITIVE :: IsWord(m)
  {
    assert IsWord("apikey") && IsWord("accesskey") && IsWord("accesstoken") && IsWord("refreshtoken");
    assert IsWord("token") && IsWord("password") && IsWord("passwd") && IsWord("secret");
    assert IsWord("authorization") && IsWord("privatekey") && IsWord("credential");
  }

  /** A name is sensitive exactly when some part of it writes one of the markers,
      or its end writes "auth". */
  lemma SensitiveExactly(name: string)
    ensures IsSensitiveName(name) <==>
            (exists marker <- SENSITIVE :: HasPart(name, marker, false)) || HasPart(name, "auth", true)
  {
    hide Compact, Lower, Contains, HasSuffix, HasPart, IsWord;
    MarkersAreWords();
    forall m <- SENSITIVE ensures Contains(Compact(Lower(name)), m) <==> HasPart(name, m, false) {
      ContainsPart(name, m);
    }
    SuffixPart(name, "auth");
  }

  /** Whatever stands around it. */
  lemma MarkerInside(before: string, part: string, after: string, marker: string)
    requires marker in SENSITIVE && Writes(part, marker)
    ensures IsSensitiveName(before + part + after)
  {
    hide Writes, IsSensitiveName;
    var name := before + part + after;
    assert name[|before|..|before| + |part|] == part;
    assert HasPart(name, marker, false);
    SensitiveExactly(name);
  }

  // ---------- Escapes ----------

  predicate IsHexDigit(c: char) { DigitValue(c) < 16 }

  /** Four hexadecimal digits from `i` on. */
  function HexValue(s: string, i: nat): (r: Option<nat>)
    requires i + 4 <= |s|
    ensures r.Some? ==> r.value < 0x1_0000
  {
    if IsHexDigit(s[i]) && IsHexDigit(s[i + 1]) && IsHexDigit(s[i + 2]) && IsHexDigit(s[i + 3]) then
      Some(((DigitValue(s[i]) * 16 + DigitValue(s[i + 1])) * 16 + DigitValue(s[i + 2])) * 16 + DigitValue(s[i + 3]))
    else None
  }

  /** A six-character escape of an identifier character. */
  function DecodeEscape(s: string, i: nat): (r: Option<char>)
    requires i <= |s|
    ensures r.Some? ==> i + 6 <= |s| && s[i] == '\\'
  {
    if i + 6 > |s| || s[i] != '\\' || (s[i + 1] != 'u' && s[i + 1] != 'U') then None
    else
      var value := HexValue(s, i + 2);
      if value.None? || value.value > 0x7F
          || !IsIdentifierByte(value.value as char) then None else Some(value.value as char)
  }

  /** The width of a control or format character written as an escape. */
  function ControlWidth(u: Unicode, s: string, i: nat): (r: Option<nat>)
    requires i <= |s|
    ensures r.Some? ==> 1 <= r.value && i + r.value <= |s| && s[i] == '\\'
  {
    if i + 2 > |s| || s[i] != '\\' then None
    else
      var end := SkipWhile(s, i, c => c == '\\');
      if end == |s| then None
      else if s[end] in "tnrbf" then Some(end + 1 - i)
      else if end + 6 <= |s| && (s[end] == 'u' || s[end] == 'U') && HexValue(s, end + 1).Some?
              && u.Ignorable(HexValue(s, end + 1).value) then Some(end + 5 - i)
      else None
  }

  method EscapedControlWidth(u: Unicode, s: string, i: nat) returns (r: Option<nat>)
    requires i <= |s|
    ensures r == ControlWidth(u, s, i)
  {
    hide HexValue, IsNumber, Value, DigitValue;
    if i + 2 > |s| || s[i] != '\\' { return None; }
    var end := i;
    while end < |s| && s[end] == '\\'
      invariant i <= end <= |s|
      invariant SkipWhile(s, i, c => c == '\\') == SkipWhile(s, end, c => c == '\\')
    {
      end := end + 1;
    }
    if end >= |s| { return None; }
    if s[end] in "tnrbf" { return Some(end + 1 - i); }
    if end + 6 <= |s| && (s[end] == 'u' || s[end] == 'U') {
      HexIsNumber(s, end + 1);
      var rune := ParseNumber(16, s[end + 1..end + 5]);
      if rune.Some? && u.ignorable(rune.value) { return Some(end + 5 - i); }
    }
    return None;
  }

  predicate IdentifierStarts(s: string, i: nat)
    requires i <= |s|
  {
    i < |s| && (IsIdentifierByte(s[i]) || DecodeEscape(s, i).Some?)
  }

  // ---------- Finding names ----------

  /** What the scanner does with the text at one index: take a character of a
      name, pass over something that is not part of it, or stop. */
  datatype Scan = Take(c: char, width: nat) | Skip(width: nat) | Stop

  function ScanAt(u: Unicode, s: string, i: nat, named: bool): (r: Scan)
    requires i < |s|
    ensures !r.Stop? ==> 1 <= r.width && i + r.width <= |s|
  {
    if IsIdentifierByte(s[i]) then Take(ToLower(s[i]), 1)
    else if DecodeEscape(s, i).Some? then Take(ToLower(DecodeEscape(s, i).value), 6)
    else
      var control := ControlWidth(u, s, i);
      if named && control.Some? && IdentifierStarts(s, i + control.value) then Skip(control.value)
      else if s[i] != ' ' && u.Ignorable(u.Decode(s[i..]).0) then Skip(u.Decode(s[i..]).1)
      else Stop
  }

  lemma HexIsNumber(s: string, i: nat)
    requires i + 4 <= |s|
    ensures HexValue(s, i) == if IsNumber(16, s[i..i + 4]) then Some(Value(16, s[i..i + 4])) else None
  {
    hide DigitValue;
    var d := s[i..i + 4];
    assert d == [s[i], s[i + 1], s[i + 2], s[i + 3]];
    assert d[..3] == [s[i], s[i + 1], s[i + 2]] && d[..3][..2] == [s[i], s[i + 1]] && d[..3][..2][..1] == [s[i]];
    assert Value(16, [s[i]]) == DigitValue(s[i]);
    assert Value(16, d[..3][..2]) == DigitValue(s[i]) * 16 + DigitValue(s[i + 1]);
    assert Value(16, d[..3]) == (DigitValue(s[i]) * 16 + DigitValue(s[i + 1])) * 16 + DigitValue(s[i + 2]);
  }

  method DecodeUnicodeEscape(s: string, i: nat) returns (r: Option<char>)
    requires i <= |s|
    ensures r == DecodeEscape(s, i)
  {
    hide IsIdentifierByte, HexValue, IsNumber, Value;
    if i + 6 > |s| || s[i] != '\\' || (s[i + 1] != 'u' && s[i + 1] != 'U') { return None; }
    HexIsNumber(s, i + 2);
    var value := ParseNumber(16, s[i + 2..i + 6]);
    if value.None? || value.value > 0x7F { return None; }
    var identifier := IdentifierByte(value.value as char);
    r := if identifier then Some(value.value as char) else None;
  }

  method IdentifierByte(c: char) returns (ok: bool)
    ensures ok <==> IsIdentifierByte(c)
  {
    ok := (c >= 'a' && c <= 'z') || (c >= 'A' && c <= 'Z') || (c >= '0' && c <= '9') || c == '_' || c == '-';
  }

  method StartsIdentifier(s: string, i: nat) returns (ok: bool)
    requires i <= |s|
    ensures ok <==> IdentifierStarts(s, i)
  {
    hide DecodeEscape, IsIdentifierByte;
    if i == |s| { return false; }
    ok := IdentifierByte(s[i]);
    if ok { return; }
    var decoded := DecodeUnicodeEscape(s, i);
    ok := decoded.Some?;
  }

  /** One step of the scanner. */
  method ScanStep(u: Unicode, s: string, i: nat, named: bool) returns (r: Scan)
    requires i < |s|
    ensures r == ScanAt(u, s, i, named)
  {
    hide DecodeEscape, ControlWidth, IdentifierStarts, IsIdentifierByte;
    var identifier := IdentifierByte(s[i]);
    if identifier { return Take(ToLower(s[i]), 1); }
    var decoded := DecodeUnicodeEscape(s, i);
    if decoded.Some? { return Take(ToLower(decoded.value), 6); }
    if named {
      var width := EscapedControlWidth(u, s, i);
      if width.Some? {
        var starts := StartsIdentifier(s, i + width.value);
        if starts { return Skip(width.value); }
      }
    }
    if s[i] != ' ' {
      var rune, width := s[i] as int, 1;
      if s[i] as int >= 0x80 {
        var decodedRune := u.decode(s[i..]);
        rune, width := decodedRune.0, decodedRune.1;
        if width < 1 || width > |s| - i { rune, width := 0xFFFD, 1; }
      }
      if u.ignorable(rune) { return Skip(width); }
    }
    r := Stop;
  }

  datatype Name = Name(start: nat, end: nat, text: string)

  /** The name the scanner collects from `i` on, having begun at `start` and
      collected `text` so far. */
  function NameFrom(u: Unicode, s: string, start: nat, i: nat, text: string): (r: Name)
    requires start <= i <= |s|
    ensures start <= r.start <= r.end <= |s| && i <= r.end
    ensures text != "" ==> r.start == start
    decreases |s| - i
  {
    if i == |s| then Name(start, i, text)
    else
      match ScanAt(u, s, i, text != "")
      case Take(c, width) => NameFrom(u, s, start, i + width, text + [c])
      case Skip(width) => NameFrom(u, s, if text == "" then i + width else start, i + width, text)
      case Stop => Name(start, i, text)
  }

  datatype Span = Span(start: nat, end: nat)

  /** The sensitive names from `i` on. */
  function NamesFrom(u: Unicode, s: string, i: nat): seq<Span>
    requires i <= |s| + 1
    decreases |s| + 1 - i
  {
    if i >= |s| then []
    else
      var name := NameFrom(u, s, i, i, "");
      if name.end > name.start then
        (if IsSensitiveName(name.text) then [Span(name.start, name.end)] else []) + NamesFrom(u, s, name.end)
      else NamesFrom(u, s, name.end + 1)
  }

  /** The name at one place of the text. */
  method ScanName(u: Unicode, s: string, first: nat) returns (start: nat, i: nat, text: string)
    requires first <= |s|
    ensures NameFrom(u, s, first, first, "") == Name(start, i, text)
  {
    hide ScanAt;
    start, i, text := first, first, "";
    while i < |s|
      invariant first <= start <= i <= |s|
      invariant NameFrom(u, s, first, first, "") == NameFrom(u, s, start, i, text)
    {
      var step := ScanStep(u, s, i, text != "");
      match step {
        case Take(c, width) => text := text + [c]; i := i + width;
        case Skip(width) =>
          if text == "" { start := i + width; }
          i := i + width;
        case Stop => return;
      }
    }
  }

  method FindSensitiveKeyMatches(u: Unicode, s: string) returns (matches: seq<Span>)
    ensures matches == NamesFrom(u, s, 0)
  {
    hide IsSensitiveName, ScanAt, NameFrom;
    matches := [];
    var i := 0;
    while i < |s|
      invariant 0 <= i <= |s| + 1
      invariant matches + NamesFrom(u, s, i) == NamesFrom(u, s, 0)
    {
      ghost var first, before := i, matches;
      var start, text;
      start, i, text := ScanName(u, s, i);
      if i > start {
        var sensitive := SensitiveName(text);
        if sensitive { matches := matches + [Span(start, i)]; }
        assert before + NamesFrom(u, s, first) == matches + NamesFrom(u, s, i);
        continue;
      }
      i := i + 1;
    }
  }

  /** Non-empty spans of the text, in order, without overlap. */
  ghost predicate Ordered(s: string, spans: seq<Span>, from: nat) {
    && (forall k :: 0 <= k < |spans| ==> from <= spans[k].start < spans[k].end <= |s|)
    && (forall k, l :: 0 <= k < l < |spans| ==> spans[k].end <= spans[l].start)
  }

  lemma {:induction false} NamesAreOrdered(u: Unicode, s: string, i: nat)
    requires i <= |s| + 1
    ensures Ordered(s, NamesFrom(u, s, i), i)
    decreases |s| + 1 - i
  {
    hide IsSensitiveName, NameFrom;
    if i < |s| {
      var name := NameFrom(u, s, i, i, "");
      NamesAreOrdered(u, s, if name.end > name.start then name.end else name.end + 1);
    }
  }

  // ---------- The end of an assignment ----------

  /** Where the assigned value starts, when the name is followed by `:` or `=`. */
  function ValueStart(s: string, keyEnd: nat): (r: Option<nat>)
    requires keyEnd <= |s|
    ensures r.Some? ==> keyEnd < r.value <= |s|
  {
    var k := SkipWhile(s, keyEnd, c => IsSpace(c) || c == '\\' || c == '\'' || c == '"');
    if k == |s| || (s[k] != ':' && s[k] != '=') then None else Some(SkipWhile(s, k + 1, IsSpace))
  }

  /** How many backslashes stand directly before `j`. */
  function Backslashes(s: string, j: nat): nat
    requires j <= |s|
  {
    if j > 0 && s[j - 1] == '\\' then 1 + Backslashes(s, j - 1) else 0
  }

  /** `j` closes the quote at `q`: the same quote at the same escape depth. */
  predicate Closes(s: string, q: nat, depth: nat, j: nat) {
    q < j < |s| && s[j] == s[q] && Backslashes(s, j) == depth
  }

  /** `end` is just behind the first closing quote, or the end of the text. */
  ghost predicate QuoteEnds(s: string, q: nat, depth: nat, end: nat)
    requires q < |s|
  {
    || (q + 1 < end && Closes(s, q, depth, end - 1) && forall k: nat :: q < k < end - 1 ==> !Closes(s, q, depth, k))
    || (end == |s| && forall k: nat :: q < k < |s| ==> !Closes(s, q, depth, k))
  }

  predicate InLine(c: char) { c != '\r' && c != '\n' }

  /** `end` is where the value that starts at `v` ends: behind the closing quote
      of the same escape depth, or at the end of the text when that is missing;
      an unquoted value ends with its line, or before an ampersand unless it is
      an authorization header. */
  ghost predicate ValueEnds(s: string, v: nat, authorization: bool, end: nat)
    requires v <= |s|
  {
    var q := SkipWhile(s, v, c => c == '\\');
    if q < |s| && (s[q] == '"' || s[q] == '\'') then QuoteEnds(s, q, q - v, end)
    else end == SkipWhile(s, v, c => InLine(c) && (authorization || c != '&'))
  }

  lemma NoLaterQuote(s: string, q: nat, depth: nat, a: nat, b: nat)
    requires q < |s| && QuoteEnds(s, q, depth, a) && QuoteEnds(s, q, depth, b)
    ensures b <= a
  {
    hide Backslashes;
    if q + 1 < a && Closes(s, q, depth, a - 1) {
      assert forall k: nat :: q < k < b - 1 ==> !Closes(s, q, depth, k);
    }
  }

  /** A value has one end. */
  lemma ValueEndsOnce(s: string, v: nat, authorization: bool, a: nat, b: nat)
    requires v <= |s| && ValueEnds(s, v, authorization, a) && ValueEnds(s, v, authorization, b)
    ensures a == b
  {
    hide QuoteEnds;
    var q := SkipWhile(s, v, c => c == '\\');
    if q < |s| && (s[q] == '"' || s[q] == '\'') {
      NoLaterQuote(s, q, q - v, a, b);
      NoLaterQuote(s, q, q - v, b, a);
    }
  }

  method PrecedingBackslashes(s: string, index: nat) returns (count: nat)
    requires index <= |s|
    ensures count == Backslashes(s, index)
  {
    count := 0;
    var i := index;
    while i > 0 && s[i - 1] == '\\'
      invariant 0 <= i <= |s|
      invariant count + Backslashes(s, i) == Backslashes(s, index)
    {
      count := count + 1;
      i := i - 1;
    }
  }

  /** The closing quote, searched from the opening one on. */
  method ClosingQuote(s: string, q: nat, depth: nat) returns (end: nat)
    requires q < |s|
    ensures q < end <= |s|
    ensures QuoteEnds(s, q, depth, end)
  {
    var j := q + 1;
    while j < |s|
      invariant q < j <= |s|
      invariant forall k: nat :: q < k < j ==> !Closes(s, q, depth, k)
    {
      if s[j] == s[q] {
        var before := PrecedingBackslashes(s, j);
        if before == depth { return j + 1; }
      }
      j := j + 1;
    }
    end := |s|;
  }

  /** The value behind `:` or `=`. */
  method FindValue(s: string, keyEnd: nat) returns (i: nat, ok: bool)
    requires keyEnd <= |s|
    ensures ok <==> ValueStart(s, keyEnd).Some?
    ensures ok ==> i == ValueStart(s, keyEnd).value
  {
    ghost var separator := c => IsSpace(c) || c == '\\' || c == '\'' || c == '"';
    i := keyEnd;
    while i < |s| && s[i] in " \t\r\n\\'\""
      invariant keyEnd <= i <= |s|
      invariant SkipWhile(s, keyEnd, separator) == SkipWhile(s, i, separator)
    {
      i := i + 1;
    }
    if i >= |s| || (s[i] != ':' && s[i] != '=') { return 0, false; }
    i := i + 1;
    ghost var value := i;
    while i < |s| && (s[i] == ' ' || s[i] == '\t' || s[i] == '\r' || s[i] == '\n')
      invariant value <= i <= |s|
      invariant SkipWhile(s, value, IsSpace) == SkipWhile(s, i, IsSpace)
    {
      i := i + 1;
    }
    ok := true;
  }

  /** The end of the value that starts at `i`. */
  method FindValueEnd(s: string, i: nat, authorization: bool) returns (end: nat)
    requires i <= |s|
    ensures i <= end <= |s| && ValueEnds(s, i, authorization, end)
  {
    hide Closes;
    var slash := c => c == '\\';
    var openingSlashes := 0;
    while i + openingSlashes < |s| && s[i + openingSlashes] == '\\'
      invariant i + openingSlashes <= |s|
      invariant SkipWhile(s, i, slash) == SkipWhile(s, i + openingSlashes, slash)
    {
      openingSlashes := openingSlashes + 1;
    }
    var quoteAt := i + openingSlashes;
    if quoteAt < |s| && (s[quoteAt] == '"' || s[quoteAt] == '\'') {
      end := ClosingQuote(s, quoteAt, openingSlashes);
      return;
    }
    end := FindLineEnd(s, i, authorization);
  }

  method FindLineEnd(s: string, i: nat, authorization: bool) returns (end: nat)
    requires i <= |s|
    ensures end == SkipWhile(s, i, c => InLine(c) && (authorization || c != '&'))
  {
    ghost var inside := c => InLine(c) && (authorization || c != '&');
    end := i;
    while end < |s| && s[end] != '\r' && s[end] != '\n' && (authorization || s[end] != '&')
      invariant i <= end <= |s|
      invariant SkipWhile(s, i, inside) == SkipWhile(s, end, inside)
    {
      end := end + 1;
    }
  }

  method AssignmentEnd(s: string, keyEnd: nat, authorization: bool) returns (end: nat, ok: bool)
    requires keyEnd <= |s|
    ensures ok <==> ValueStart(s, keyEnd).Some?
    ensures ok ==> keyEnd < end <= |s| && ValueEnds(s, ValueStart(s, keyEnd).value, authorization, end)
  {
    hide ValueStart, ValueEnds;
    var i;
    i, ok := FindValue(s, keyEnd);
    if !ok { return 0, false; }
    end := FindValueEnd(s, i, authorization);
  }

  // ---------- Rewriting ----------

  /** The text up to the end of the last span, each span replaced by the marker. */
  ghost function Kept(s: string, spans: seq<Span>): string
    requires Ordered(s, spans, 0)
  {
    if spans == [] then ""
    else
      var n := |spans| - 1;
      Kept(s, spans[..n]) + s[EndOf(spans[..n])..spans[n].start] + MARKER
  }

  ghost function EndOf(spans: seq<Span>): nat {
    if spans == [] then 0 else spans[|spans| - 1].end
  }

  /** The text with the spans replaced by the marker and nothing else changed. */
  ghost function Rewritten(s: string, spans: seq<Span>): string
    requires Ordered(s, spans, 0)
  {
    Kept(s, spans) + s[EndOf(spans)..]
  }

  predicate IsAuthorization(s: string, m: Span)
    requires m.start <= m.end <= |s|
  {
    Lower(s[m.start..m.end]) == AUTHORIZATION
  }

  predicate Assigned(s: string, m: Span)
    requires m.end <= |s|
  {
    ValueStart(s, m.end).Some?
  }

  /** `span` runs from the start of the name `m` to the end of what is assigned to it. */
  ghost predicate Covers(s: string, m: Span, span: Span)
    requires m.start <= m.end <= |s|
  {
    && span.start == m.start && Assigned(s, m)
    && ValueEnds(s, ValueStart(s, m.end).value, IsAuthorization(s, m), span.end)
  }

  /** Inside a span that starts earlier. */
  ghost predicate Swallowed(spans: seq<Span>, m: Span) {
    exists k :: 0 <= k < |spans| && spans[k].start < m.start < spans[k].end
  }

  /** The first `n` names have been dealt with. */
  ghost predicate Redacted(s: string, matches: seq<Span>, n: nat, spans: seq<Span>)
    requires n <= |matches| && Ordered(s, matches, 0)
  {
    && Ordered(s, spans, 0)
    && (forall k :: 0 <= k < |spans| ==> exists i :: 0 <= i < n && Covers(s, matches[i], spans[k]))
    && (forall i :: 0 <= i < n && Assigned(s, matches[i]) ==>
         (exists k :: 0 <= k < |spans| && Covers(s, matches[i], spans[k])) || Swallowed(spans, matches[i]))
  }

  lemma RedactedSkip(s: string, matches: seq<Span>, n: nat, spans: seq<Span>)
    requires n < |matches| && Ordered(s, matches, 0) && Redacted(s, matches, n, spans)
    requires !Assigned(s, matches[n]) || matches[n].start < EndOf(spans)
    ensures Redacted(s, matches, n + 1, spans)
  {
    hide Covers, Assigned;
    if matches[n].start < EndOf(spans) { SwallowedByLast(s, matches, n, spans); }
    forall k | 0 <= k < |spans| ensures exists i :: 0 <= i < n + 1 && Covers(s, matches[i], spans[k]) {
      var i :| 0 <= i < n && Covers(s, matches[i], spans[k]);
    }
  }

  lemma SwallowedByLast(s: string, matches: seq<Span>, n: nat, spans: seq<Span>)
    requires n < |matches| && Ordered(s, matches, 0) && Redacted(s, matches, n, spans)
    requires matches[n].start < EndOf(spans)
    ensures Swallowed(spans, matches[n])
  {
    hide ValueEnds, Assigned, IsAuthorization;
    var k := |spans| - 1;
    var i :| 0 <= i < n && Covers(s, matches[i], spans[k]);
    assert spans[k].start < matches[n].start < spans[k].end;
  }

  lemma RedactedAdd(s: string, matches: seq<Span>, n: nat, spans: seq<Span>, span: Span)
    requires n < |matches| && Ordered(s, matches, 0) && Redacted(s, matches, n, spans)
    requires Covers(s, matches[n], span) && EndOf(spans) <= span.start < span.end <= |s|
    ensures Redacted(s, matches, n + 1, spans + [span])
  {
    hide ValueEnds, Assigned, IsAuthorization, Covers;
    var spans' := spans + [span];
    OrderedAdd(s, spans, span);
    forall k | 0 <= k < |spans'| ensures exists i :: 0 <= i < n + 1 && Covers(s, matches[i], spans'[k]) {
      if k < |spans| { var i :| 0 <= i < n && Covers(s, matches[i], spans[k]); }
    }
    forall i | 0 <= i < n + 1 && Assigned(s, matches[i])
      ensures (exists k :: 0 <= k < |spans'| && Covers(s, matches[i], spans'[k])) || Swallowed(spans', matches[i])
    {
      if i == n {
        assert Covers(s, matches[n], spans'[|spans|]);
      } else if Swallowed(spans, matches[i]) {
        var k :| 0 <= k < |spans| && spans[k].start < matches[i].start < spans[k].end;
        assert spans'[k] == spans[k];
      } else {
        var k :| 0 <= k < |spans| && Covers(s, matches[i], spans[k]);
        assert spans'[k] == spans[k];
      }
    }
  }

  lemma OrderedAdd(s: string, spans: seq<Span>, span: Span)
    requires Ordered(s, spans, 0) && EndOf(spans) <= span.start < span.end <= |s|
    ensures Ordered(s, spans + [span], 0)
  {
    forall k | 0 <= k < |spans| ensures spans[k].end <= span.start {
      if k < |spans| - 1 { assert spans[k].end <= spans[|spans| - 1].start; }
    }
  }

  /** `spans` are the assignments to replace. */
  ghost predicate Assignments(u: Unicode, s: string, spans: seq<Span>) {
    var names := NamesFrom(u, s, 0);
    Ordered(s, names, 0) && Redacted(s, names, |names|, spans)
  }

  /** Replacing every sensitive assignment. Each one is replaced up to its end,
      unless it starts inside an assignment that is replaced already; the rest
      of the text is unchanged. */
  method RedactAssignments(u: Unicode, s: string) returns (r: string)
    ensures exists spans :: Assignments(u, s, spans) && r == Rewritten(s, spans)
  {
    hide NamesFrom, ValueEnds, Redacted, ValueStart;
    NamesAreOrdered(u, s, 0);
    ghost var spans: seq<Span> := [];
    var matches := FindSensitiveKeyMatches(u, s);
    NothingRedacted(s, matches);
    if |matches| == 0 {
      assert Assignments(u, s, spans);
      return s;
    }
    var output := "";
    var cursor := 0;
    var n := 0;
    while n < |matches|
      invariant 0 <= n <= |matches|
      invariant Ordered(s, spans, 0) && Redacted(s, matches, n, spans)
      invariant cursor == EndOf(spans) <= |s| && output == Kept(s, spans)
    {
      var m := matches[n];
      if m.start < cursor {
        RedactedSkip(s, matches, n, spans);
        n := n + 1;
        continue;
      }
      var end, ok := AssignmentEnd(s, m.end, IsAuthorization(s, m));
      if !ok {
        RedactedSkip(s, matches, n, spans);
        n := n + 1;
        continue;
      }
      RedactedAdd(s, matches, n, spans, Span(m.start, end));
      KeptAdd(s, spans, Span(m.start, end));
      output := output + s[cursor..m.start] + MARKER;
      cursor := end;
      spans := spans + [Span(m.start, end)];
      n := n + 1;
    }
    assert Assignments(u, s, spans);
    if cursor == 0 { return s; }
    r := output + s[cursor..];
  }

  lemma SpanStarts(s: string, matches: seq<Span>, spans: seq<Span>, k: nat) returns (i: nat)
    requires Ordered(s, matches, 0) && Redacted(s, matches, |matches|, spans) && k < |spans|
    ensures i < |matches| && Covers(s, matches[i], spans[k])
  {
    hide Covers;
    i :| 0 <= i < |matches| && Covers(s, matches[i], spans[k]);
  }

  /** Every span of one list is in any other list with the same properties. */
  lemma {:induction false} SpanInBoth(s: string, matches: seq<Span>, a: seq<Span>, b: seq<Span>, k: nat)
    requires Ordered(s, matches, 0) && k < |a|
    requires Redacted(s, matches, |matches|, a) && Redacted(s, matches, |matches|, b)
    ensures a[k] in b
    decreases a[k].start
  {
    hide Covers, Assigned;
    var i := SpanStarts(s, matches, a, k);
    CoversFacts(s, matches[i], a[k]);
    if l :| 0 <= l < |b| && Covers(s, matches[i], b[l]) {
      CoverOnce(s, matches[i], a[k], b[l]);
    } else {
      assert Swallowed(b, matches[i]);
      var l :| 0 <= l < |b| && b[l].start < matches[i].start < b[l].end;
      SpanInBoth(s, matches, b, a, l);
      Overlap(s, a, b[l], a[k]);
    }
  }

  lemma CoversFacts(s: string, m: Span, x: Span)
    requires m.start <= m.end <= |s| && Covers(s, m, x)
    ensures x.start == m.start && Assigned(s, m)
  {
  }

  lemma CoverOnce(s: string, m: Span, x: Span, y: Span)
    requires m.start <= m.end <= |s| && Covers(s, m, x) && Covers(s, m, y)
    ensures x == y
  {
    hide ValueEnds, ValueStart;
    ValueEndsOnce(s, ValueStart(s, m.end).value, IsAuthorization(s, m), x.end, y.end);
  }

  lemma Overlap(s: string, a: seq<Span>, x: Span, y: Span)
    requires Ordered(s, a, 0) && x in a && y in a
    ensures !(x.start < y.start < x.end)
  {
  }

  /** The spans are determined by the text: two lists with these properties
      have the same spans. */
  lemma AssignmentsUnique(u: Unicode, s: string, a: seq<Span>, b: seq<Span>)
    requires Assignments(u, s, a) && Assignments(u, s, b)
    ensures forall x :: x in a <==> x in b
  {
    hide NamesFrom, Redacted;
    forall x ensures x in a <==> x in b {
      if x in a { var k :| 0 <= k < |a| && a[k] == x; SpanInBoth(s, NamesFrom(u, s, 0), a, b, k); }
      if x in b { var k :| 0 <= k < |b| && b[k] == x; SpanInBoth(s, NamesFrom(u, s, 0), b, a, k); }
    }
  }

  lemma NothingRedacted(s: string, matches: seq<Span>)
    requires Ordered(s, matches, 0)
    ensures Redacted(s, matches, 0, []) && Ordered(s, [], 0) && Rewritten(s, []) == s
  {
  }

  lemma KeptAdd(s: string, spans: seq<Span>, span: Span)
    requires Ordered(s, spans, 0) && EndOf(spans) <= span.start < span.end <= |s|
    ensures Ordered(s, spans + [span], 0)
    ensures Kept(s, spans + [span]) == Kept(s, spans) + s[EndOf(spans)..span.start] + MARKER
  {
    OrderedAdd(s, spans, span);
    assert (spans + [span])[..|spans|] == spans;
  }

  // ---------- Plain text ----------

  /** Text without backslashes and without control or format characters. */
  ghost predicate Plain(u: Unicode, s: string) {
    forall i :: 0 <= i < |s| ==>
      s[i] != '\\' && (IsIdentifierByte(s[i]) || s[i] == ' ' || !u.Ignorable(u.Decode(s[i..]).0))
  }

  /** A longest run of identifier characters. */
  ghost predicate Word(s: string, m: Span) {
    && m.start < m.end <= |s|
    && (forall i :: m.start <= i < m.end ==> IsIdentifierByte(s[i]))
    && (m.start > 0 ==> !IsIdentifierByte(s[m.start - 1]))
    && (m.end < |s| ==> !IsIdentifierByte(s[m.end]))
  }

  lemma PlainScan(u: Unicode, s: string, i: nat, named: bool)
    requires Plain(u, s) && i < |s|
    ensures ScanAt(u, s, i, named) == if IsIdentifierByte(s[i]) then Take(ToLower(s[i]), 1) else Stop
  {
    hide IsIdentifierByte, HexValue;
  }

  lemma {:induction false} PlainName(u: Unicode, s: string, start: nat, i: nat, text: string)
    requires Plain(u, s) && start <= i <= |s|
    ensures var end := SkipWhile(s, i, IsIdentifierByte);
            NameFrom(u, s, start, i, text) == Name(start, end, text + Lower(s[i..end]))
    decreases |s| - i
  {
    hide IsIdentifierByte, ScanAt, Plain;
    var end := SkipWhile(s, i, IsIdentifierByte);
    if i < |s| {
      PlainScan(u, s, i, text != "");
      if IsIdentifierByte(s[i]) {
        PlainName(u, s, start, i + 1, text + [ToLower(s[i])]);
        assert Lower(s[i..end]) == [ToLower(s[i])] + Lower(s[i + 1..end]);
      } else {
        assert text + Lower(s[i..end]) == text;
      }
    } else {
      assert text + Lower(s[i..end]) == text;
    }
  }

  /** In plain text exactly the sensitive words are found. */
  lemma {:induction false} PlainNames(u: Unicode, s: string, i: nat, m: Span)
    requires Plain(u, s) && i <= |s| + 1
    requires 0 < i < |s| ==> !IsIdentifierByte(s[i - 1]) || !IsIdentifierByte(s[i])
    ensures m in NamesFrom(u, s, i) <==> m.start >= i && Word(s, m) && IsSensitiveName(Lower(s[m.start..m.end]))
    decreases |s| + 1 - i
  {
    hide IsIdentifierByte, IsSensitiveName, Plain, NameFrom;
    if i < |s| {
      PlainName(u, s, i, i, "");
      var end := SkipWhile(s, i, IsIdentifierByte);
      assert "" + Lower(s[i..end]) == Lower(s[i..end]);
      PlainNames(u, s, if end > i then end else i + 1, m);
      WordsFrom(s, i, end, m);
    }
  }

  lemma WordsFrom(s: string, i: nat, end: nat, m: Span)
    requires i < |s| && end == SkipWhile(s, i, IsIdentifierByte)
    requires i > 0 ==> !IsIdentifierByte(s[i - 1]) || !IsIdentifierByte(s[i])
    ensures m.start >= i && Word(s, m) <==>
            (end > i && m == Span(i, end)) || (m.start >= (if end > i then end else i + 1) && Word(s, m))
  {
    hide IsIdentifierByte;
  }

  // ---------- What is replaced ----------

  /** The header name, in any letter case. */
  lemma AuthorizationExactly(s: string, m: Span)
    requires m.start <= m.end <= |s|
    ensures var name := s[m.start..m.end];
            IsAuthorization(s, m) <==>
            |name| == |AUTHORIZATION| && forall i :: 0 <= i < |name| ==> IsLetterOf(name[i], AUTHORIZATION[i])
  {
    var name := s[m.start..m.end];
    AuthorizationIsWord();
    assert forall i :: 0 <= i < |name| ==> Lower(name)[i] == ToLower(name[i]);
    if |name| == |AUTHORIZATION| {
      assert Lower(name) == AUTHORIZATION <==> forall i :: 0 <= i < |name| ==> Lower(name)[i] == AUTHORIZATION[i];
    }
  }

  lemma AuthorizationIsWord()
    ensures IsWord(AUTHORIZATION)
  {
  }

  /** Some part of the name writes a marker, or its end writes "auth". */
  ghost predicate SaysSecret(name: string) {
    (exists marker <- SENSITIVE :: HasPart(name, marker, false)) || HasPart(name, "auth", true)
  }

  /** A word that says so, directly followed by a separator. */
  ghost predicate AssignsSecret(s: string, m: Span) {
    Word(s, m) && SaysSecret(s[m.start..m.end]) && m.end < |s| && (s[m.end] == ':' || s[m.end] == '=')
  }

  lemma LowerTwice(name: string)
    ensures Lower(Lower(name)) == Lower(name)
    ensures IsSensitiveName(Lower(name)) <==> IsSensitiveName(name)
  {
    assert Lower(Lower(name)) == Lower(name);
  }

  lemma SeparatorFollows(s: string, m: Span)
    requires m.end < |s| && (s[m.end] == ':' || s[m.end] == '=')
    ensures ValueStart(s, m.end) == Some(SkipWhile(s, m.end + 1, IsSpace)) && Assigned(s, m)
  {
  }

  lemma SecretIsFound(u: Unicode, s: string, m: Span)
    requires Plain(u, s) && AssignsSecret(s, m)
    ensures m in NamesFrom(u, s, 0) && Assigned(s, m)
  {
    hide Plain, Word, IsSensitiveName, NamesFrom, HasPart, Assigned, Lower;
    WordBounds(s, m);
    var name := s[m.start..m.end];
    SensitiveExactly(name);
    LowerTwice(name);
    PlainNames(u, s, 0, m);
    SeparatorFollows(s, m);
  }

  /** No value ends inside a word or at its separator. */
  lemma EndsOutside(s: string, v: nat, authorization: bool, end: nat, m: Span)
    requires v <= |s| && ValueEnds(s, v, authorization, end) && m.start < end
    requires Word(s, m) && m.end < |s| && (s[m.end] == ':' || s[m.end] == '=')
    ensures m.end < end
  {
    hide Backslashes;
  }

  lemma EndsBehind(s: string, v: nat, authorization: bool, end: nat)
    requires v <= |s| && ValueEnds(s, v, authorization, end)
    ensures v <= end
  {
    hide Backslashes;
  }

  /** In plain text every word that says so is replaced together with its
      separator. */
  lemma SecretsAreReplaced(u: Unicode, s: string, spans: seq<Span>, m: Span) returns (k: nat)
    requires Plain(u, s) && Assignments(u, s, spans) && AssignsSecret(s, m)
    ensures k < |spans| && spans[k].start <= m.start && m.end < spans[k].end
    ensures spans[k].start == m.start ==>
              ValueEnds(s, SkipWhile(s, m.end + 1, IsSpace), IsAuthorization(s, m), spans[k].end)
  {
    hide Plain, NamesFrom, IsAuthorization, SaysSecret, ValueEnds, Redacted, Word, ValueStart, Ordered;
    var names := NamesFrom(u, s, 0);
    SecretIsFound(u, s, m);
    NamesAreOrdered(u, s, 0);
    WordBounds(s, m);
    var i :| 0 <= i < |names| && names[i] == m;
    SeparatorFollows(s, m);
    k := ReplacedAt(s, names, spans, i);
    if spans[k].start == m.start {
      EndsBehind(s, SkipWhile(s, m.end + 1, IsSpace), IsAuthorization(s, m), spans[k].end);
    } else {
      var j := SpanStarts(s, names, spans, k);
      NameBounds(s, names, j);
      EndsOutside(s, ValueStart(s, names[j].end).value, IsAuthorization(s, names[j]), spans[k].end, m);
    }
  }

  lemma WordBounds(s: string, m: Span)
    requires Word(s, m)
    ensures m.start < m.end <= |s|
  {
  }

  lemma NameBounds(s: string, names: seq<Span>, j: nat)
    requires Ordered(s, names, 0) && j < |names|
    ensures names[j].start <= names[j].end <= |s|
  {
  }

  lemma ReplacedAt(s: string, names: seq<Span>, spans: seq<Span>, i: nat) returns (k: nat)
    requires Ordered(s, names, 0) && Redacted(s, names, |names|, spans) && i < |names| && Assigned(s, names[i])
    ensures k < |spans| && (Covers(s, names[i], spans[k]) || spans[k].start < names[i].start < spans[k].end)
  {
    hide Covers, Assigned;
    if l :| 0 <= l < |spans| && Covers(s, names[i], spans[l]) {
      k := l;
    } else {
      assert Swallowed(spans, names[i]);
      k :| 0 <= k < |spans| && spans[k].start < names[i].start < spans[k].end;
    }
  }

  /** A text that is one assignment of a secret: nothing of it is left. */
  lemma NothingLeft(u: Unicode, s: string, spans: seq<Span>, n: nat)
    requires Plain(u, s) && Assignments(u, s, spans) && AssignsSecret(s, Span(0, n))
    requires n + 1 < |s| && IsValue(s, n + 1, IsAuthorization(s, Span(0, n)))
    ensures Rewritten(s, spans) == MARKER
  {
    hide Plain, NamesFrom, SaysSecret, Redacted, Word, IsAuthorization;
    var k := SecretsAreReplaced(u, s, spans, Span(0, n));
    SpansOrdered(u, s, spans);
    var authorization := IsAuthorization(s, Span(0, n));
    ValueIsAll(s, n + 1, authorization);
    ValueEndsOnce(s, n + 1, authorization, spans[k].end, |s|);
    OnlySpan(s, spans, k);
    assert spans == [Span(0, |s|)] && spans[..0] == [];
    assert Kept(s, []) == "" && Kept(s, spans) == "" + s[0..0] + MARKER;
  }

  lemma OnlySpan(s: string, spans: seq<Span>, k: nat)
    requires Ordered(s, spans, 0) && k < |spans| && spans[k] == Span(0, |s|)
    ensures |spans| == 1
  {
    if |spans| > 1 { SpanIs(s, spans, k, if k == 0 then 1 else 0); }
  }

  lemma SpanIs(s: string, spans: seq<Span>, k: nat, l: nat)
    requires Ordered(s, spans, 0) && k < |spans| && l < |spans| && spans[k] == Span(0, |s|)
    requires spans[l].start < spans[l].end <= |s|
    ensures l == k
  {
  }

  lemma SpansOrdered(u: Unicode, s: string, spans: seq<Span>)
    requires Assignments(u, s, spans)
    ensures Ordered(s, spans, 0)
  {
    hide NamesFrom, Covers, Assigned, Swallowed;
  }

  /** The rest of the text is one line of an unquoted value. */
  ghost predicate IsValue(s: string, v: nat, authorization: bool)
    requires v < |s|
  {
    && s[v] !in " \t\\\"'"
    && forall i :: v <= i < |s| ==> s[i] != '\r' && s[i] != '\n' && (authorization || s[i] != '&')
  }

  lemma ValueIsAll(s: string, v: nat, authorization: bool)
    requires v < |s| && IsValue(s, v, authorization)
    ensures SkipWhile(s, v, IsSpace) == v && ValueEnds(s, v, authorization, |s|)
  {
  }

  // ---------- Disguised names ----------

  /** One piece of the spelling of a name: a character as it is, the escape of
      one, a control or format character, or the escape of one. */
  datatype Piece =
    | AsIs(c: char)
    | Escape(upper: bool, digits: string)
    | Control(bytes: string)
    | ControlEscape(slashes: nat, code: string)

  function Repeat(c: char, n: nat): string {
    seq(n, i => c)
  }

  function Spell(p: Piece): string {
    match p
    case AsIs(c) => [c]
    case Escape(upper, digits) => ['\\', if upper then 'U' else 'u'] + digits
    case Control(bytes) => bytes
    case ControlEscape(slashes, code) => Repeat('\\', slashes) + code
  }

  /** The character a piece stands for; the other pieces stand for nothing. */
  function Means(p: Piece): string {
    match p
    case AsIs(c) => [ToLower(c)]
    case Escape(_, digits) =>
      if |digits| == 4 && HexValue(digits, 0).Some? && HexValue(digits, 0).value <= 0x7F
      then [ToLower(HexValue(digits, 0).value as char)] else []
    case _ => []
  }

  function SpellAll(pieces: seq<Piece>): string {
    if pieces == [] then "" else Spell(pieces[0]) + SpellAll(pieces[1..])
  }

  function MeansAll(pieces: seq<Piece>): string {
    if pieces == [] then "" else Means(pieces[0]) + MeansAll(pieces[1..])
  }

  /** `bytes` are one control or format character, whatever follows. */
  ghost predicate IsControl(u: Unicode, bytes: string) {
    && bytes != "" && !IsIdentifierByte(bytes[0]) && bytes[0] != ' ' && bytes[0] != '\\'
    && forall rest: string :: u.Decode(bytes + rest).1 == |bytes| && u.Ignorable(u.Decode(bytes + rest).0)
  }

  predicate IsControlCode(u: Unicode, code: string) {
    || (|code| == 1 && code[0] in "tnrbf")
    || (|code| == 5 && (code[0] == 'u' || code[0] == 'U') && HexValue(code, 1).Some?
        && u.Ignorable(HexValue(code, 1).value)
        && (HexValue(code, 1).value > 0x7F || !IsIdentifierByte(HexValue(code, 1).value as char)))
  }

  predicate IsLetter(p: Piece) { p.AsIs? || p.Escape? }

  ghost predicate PieceOk(u: Unicode, p: Piece) {
    match p
    case AsIs(c) => IsIdentifierByte(c)
    case Escape(_, digits) =>
      && |digits| == 4 && HexValue(digits, 0).Some? && HexValue(digits, 0).value <= 0x7F
      && IsIdentifierByte(HexValue(digits, 0).value as char)
    case Control(bytes) => IsControl(u, bytes)
    case ControlEscape(slashes, code) => slashes > 0 && IsControlCode(u, code)
  }

  /** A spelling: an escaped control only before a character of the name. */
  ghost predicate Spelling(u: Unicode, pieces: seq<Piece>) {
    && (forall p <- pieces :: PieceOk(u, p))
    && (forall k :: 0 <= k < |pieces| && pieces[k].ControlEscape? ==> k + 1 < |pieces| && IsLetter(pieces[k + 1]))
  }

  /** Every identifier character can be escaped. */
  function EscapeOf(c: char): Piece
    requires IsIdentifierByte(c)
  {
    IdentifierIsAscii(c);
    Escape(false, ['0', '0', DigitChar((c as int) / 16), DigitChar((c as int) % 16)])
  }

  lemma IdentifierIsAscii(c: char)
    requires IsIdentifierByte(c)
    ensures c as int <= 0x7F
  {
  }

  lemma DigitBack(d: nat)
    requires d < 16
    ensures DigitValue(DigitChar(d)) == d
  {
  }

  lemma EscapeMeansCharacter(u: Unicode, c: char)
    requires IsIdentifierByte(c)
    ensures PieceOk(u, EscapeOf(c)) && Means(EscapeOf(c)) == Means(AsIs(c))
  {
    hide DigitChar, IsIdentifierByte;
    var h, l := (c as int) / 16, (c as int) % 16;
    IdentifierIsAscii(c);
    DigitBack(h);
    DigitBack(l);
    assert HexValue(EscapeOf(c).digits, 0) == Some(h * 16 + l);
    assert (h * 16 + l) as char == c;
  }

  lemma ScanEscape(u: Unicode, s: string, i: nat, p: Piece, named: bool)
    requires p.Escape? && PieceOk(u, p) && i + 6 <= |s| && s[i..i + 6] == Spell(p)
    ensures DecodeEscape(s, i).Some? && [ToLower(DecodeEscape(s, i).value)] == Means(p)
    ensures ScanAt(u, s, i, named) == Take(Means(p)[0], 6)
  {
    var text := Spell(p);
    assert forall k :: 0 <= k < 6 ==> s[i + k] == s[i..i + 6][k] == text[k];
    assert forall k :: 0 <= k < 4 ==> s[i + 2 + k] == text[2 + k] == p.digits[k];
    assert HexValue(s, i + 2) == HexValue(p.digits, 0);
  }

  /** The start of a letter of the name is recognised as such. */
  lemma LetterStarts(u: Unicode, s: string, i: nat, p: Piece)
    requires IsLetter(p) && PieceOk(u, p) && i + |Spell(p)| <= |s| && s[i..i + |Spell(p)|] == Spell(p)
    ensures IdentifierStarts(s, i) && i < |s|
    ensures ScanAt(u, s, i, true) == Take(Means(p)[0], |Spell(p)|) == ScanAt(u, s, i, false)
    ensures |Means(p)| == 1
  {
    hide HexValue;
    if p.AsIs? {
      assert s[i] == s[i..i + 1][0];
    } else {
      ScanEscape(u, s, i, p, true);
      ScanEscape(u, s, i, p, false);
    }
  }

  lemma ScanControlEscape(u: Unicode, s: string, i: nat, p: Piece)
    requires p.ControlEscape? && PieceOk(u, p) && i + |Spell(p)| < |s| && s[i..i + |Spell(p)|] == Spell(p)
    requires IdentifierStarts(s, i + |Spell(p)|)
    ensures ScanAt(u, s, i, true) == Skip(|Spell(p)|)
  {
    hide HexValue, Spell, PieceOk, DecodeEscape, ControlWidth;
    ControlEscapeParts(u, s, i, p);
    SlashesEnd(s, i, i + p.slashes);
    ControlEscapeWidth(u, s, i, i + p.slashes, p);
    NotAnEscape(u, s, i, p);
  }

  lemma ControlEscapeParts(u: Unicode, s: string, i: nat, p: Piece)
    requires p.ControlEscape? && PieceOk(u, p) && i + |Spell(p)| < |s| && s[i..i + |Spell(p)|] == Spell(p)
    ensures var end := i + p.slashes;
            && |Spell(p)| == p.slashes + |p.code| && p.slashes > 0
            && (forall k :: i <= k < end ==> s[k] == '\\')
            && s[end] != '\\' && s[end..end + |p.code|] == p.code
  {
    hide IsControlCode;
    var slashes := Repeat('\\', p.slashes);
    CodeStarts(u, p.code);
    TextApart(s, i, slashes, p.code);
    assert forall k :: i <= k < i + p.slashes ==> s[k] == s[i..i + p.slashes][k - i] == slashes[k - i];
    assert s[i + p.slashes] == s[i + p.slashes..i + p.slashes + |p.code|][0];
  }

  lemma CodeStarts(u: Unicode, code: string)
    requires IsControlCode(u, code)
    ensures code != "" && code[0] != '\\'
  {
  }

  lemma TextApart(s: string, i: nat, a: string, b: string)
    requires i + |a| + |b| <= |s| && s[i..i + |a| + |b|] == a + b
    ensures s[i..i + |a|] == a && s[i + |a|..i + |a| + |b|] == b
  {
    var all := s[i..i + |a| + |b|];
    assert s[i..i + |a|] == all[..|a|];
    assert s[i + |a|..i + |a| + |b|] == all[|a|..];
  }

  lemma SlashesEnd(s: string, i: nat, end: nat)
    requires i <= end < |s| && (forall k :: i <= k < end ==> s[k] == '\\') && s[end] != '\\'
    ensures SkipWhile(s, i, c => c == '\\') == end
  {
    var k := SkipWhile(s, i, c => c == '\\');
    assert k >= end ==> k == end;
  }

  lemma ControlEscapeWidth(u: Unicode, s: string, i: nat, end: nat, p: Piece)
    requires p.ControlEscape? && PieceOk(u, p) && end == i + p.slashes && end + |p.code| < |s|
    requires s[i] == '\\' && SkipWhile(s, i, c => c == '\\') == end && s[end..end + |p.code|] == p.code
    ensures ControlWidth(u, s, i) == Some(p.slashes + |p.code|)
  {
    assert forall k :: 0 <= k < |p.code| ==> s[end + k] == s[end..end + |p.code|][k] == p.code[k];
    if |p.code| == 5 {
      assert HexValue(s, end + 1) == HexValue(p.code, 1);
    }
  }

  lemma NotAnEscape(u: Unicode, s: string, i: nat, p: Piece)
    requires p.ControlEscape? && PieceOk(u, p) && i + |Spell(p)| < |s| && s[i..i + |Spell(p)|] == Spell(p)
    ensures s[i] == '\\' && DecodeEscape(s, i).None?
  {
    var text := Spell(p);
    assert forall k :: 0 <= k < |text| ==> s[i + k] == s[i..i + |text|][k] == text[k];
    assert text[0] == '\\';
    if p.slashes > 1 {
      assert s[i + 1] == text[1] == '\\';
    } else {
      assert s[i + 1] == text[1] == p.code[0];
      if |p.code| == 5 {
        var digits := p.code[1..];
        assert forall k :: 0 <= k < 4 ==> s[i + 2 + k] == text[2 + k] == digits[k];
        assert HexValue(s, i + 2) == HexValue(p.code, 1);
      }
    }
  }

  lemma ScanControl(u: Unicode, s: string, i: nat, p: Piece, named: bool)
    requires p.Control? && PieceOk(u, p) && i + |p.bytes| <= |s| && s[i..i + |p.bytes|] == p.bytes
    ensures i < |s| && ScanAt(u, s, i, named) == Skip(|p.bytes|)
  {
    assert s[i] == s[i..i + |p.bytes|][0];
    assert s[i..] == p.bytes + s[i + |p.bytes|..];
  }

  /** However a name is disguised, the scanner collects what it means. */
  lemma {:induction false} SpelledName(u: Unicode, s: string, start: nat, i: nat, text: string, pieces: seq<Piece>)
    requires Spelling(u, pieces) && start <= i && i + |SpellAll(pieces)| <= |s|
    requires s[i..i + |SpellAll(pieces)|] == SpellAll(pieces)
    requires text != "" || (pieces != [] && IsLetter(pieces[0]))
    ensures NameFrom(u, s, start, i, text) == NameFrom(u, s, start, i + |SpellAll(pieces)|, text + MeansAll(pieces))
    decreases |pieces|
  {
    hide PieceOk, ScanAt, Spell, Means, IsLetter;
    if pieces == [] {
      assert text + MeansAll(pieces) == text;
    } else {
      var p, rest := pieces[0], pieces[1..];
      PiecesApart(s, i, p, rest);
      ScanPiece(u, s, i, text, pieces);
      RestIsSpelling(u, pieces);
      NameStep(u, s, start, i, text, p);
      assert text + MeansAll(pieces) == (text + Means(p)) + MeansAll(rest);
      SpelledName(u, s, start, i + |Spell(p)|, text + Means(p), rest);
    }
  }

  lemma NameStep(u: Unicode, s: string, start: nat, i: nat, text: string, p: Piece)
    requires start <= i < |s| && i + |Spell(p)| <= |s|
    requires (|Means(p)| == 1 && ScanAt(u, s, i, text != "") == Take(Means(p)[0], |Spell(p)|))
          || (text != "" && Means(p) == "" && ScanAt(u, s, i, text != "") == Skip(|Spell(p)|))
    ensures NameFrom(u, s, start, i, text) == NameFrom(u, s, start, i + |Spell(p)|, text + Means(p))
    ensures text + Means(p) != ""
  {
    hide ScanAt, Spell, Means;
    if |Means(p)| == 1 {
      assert Means(p) == [Means(p)[0]];
    } else {
      assert text + Means(p) == text;
    }
  }

  lemma PiecesApart(s: string, i: nat, p: Piece, rest: seq<Piece>)
    requires i + |Spell(p)| + |SpellAll(rest)| <= |s|
    requires s[i..i + |Spell(p)| + |SpellAll(rest)|] == Spell(p) + SpellAll(rest)
    ensures s[i..i + |Spell(p)|] == Spell(p)
    ensures s[i + |Spell(p)|..i + |Spell(p)| + |SpellAll(rest)|] == SpellAll(rest)
  {
    hide Spell, SpellAll;
    TextApart(s, i, Spell(p), SpellAll(rest));
  }

  lemma RestIsSpelling(u: Unicode, pieces: seq<Piece>)
    requires Spelling(u, pieces) && pieces != []
    ensures Spelling(u, pieces[1..]) && PieceOk(u, pieces[0])
  {
    hide PieceOk, IsLetter;
    assert pieces[0] in pieces && forall p <- pieces[1..] :: p in pieces;
    assert forall k :: 0 <= k < |pieces| - 1 ==> pieces[1..][k] == pieces[k + 1];
  }

  lemma NextIsLetter(u: Unicode, pieces: seq<Piece>)
    requires Spelling(u, pieces) && pieces != [] && pieces[0].ControlEscape?
    ensures |pieces| > 1 && IsLetter(pieces[1]) && PieceOk(u, pieces[1]) && pieces[1] == pieces[1..][0]
    ensures SpellAll(pieces[1..]) == Spell(pieces[1]) + SpellAll(pieces[1..][1..])
  {
    hide PieceOk, IsLetter, Spell;
  }

  lemma ScanPiece(u: Unicode, s: string, i: nat, text: string, pieces: seq<Piece>)
    requires Spelling(u, pieces) && pieces != [] && (text != "" || IsLetter(pieces[0]))
    requires i + |SpellAll(pieces)| <= |s| && s[i..i + |SpellAll(pieces)|] == SpellAll(pieces)
    ensures i < |s|
    ensures IsLetter(pieces[0]) ==>
            |Means(pieces[0])| == 1 && ScanAt(u, s, i, text != "") == Take(Means(pieces[0])[0], |Spell(pieces[0])|)
    ensures !IsLetter(pieces[0]) ==> Means(pieces[0]) == "" && ScanAt(u, s, i, text != "") == Skip(|Spell(pieces[0])|)
  {
    hide PieceOk, ScanAt, IdentifierStarts, Spelling, Spell;
    var p, rest := pieces[0], pieces[1..];
    RestIsSpelling(u, pieces);
    PiecesApart(s, i, p, rest);
    if IsLetter(p) {
      LetterStarts(u, s, i, p);
    } else if p.Control? {
      ControlIsBytes(p);
      ScanControl(u, s, i, p, text != "");
    } else {
      NextIsLetter(u, pieces);
      PiecesApart(s, i + |Spell(p)|, rest[0], rest[1..]);
      LetterStarts(u, s, i + |Spell(p)|, rest[0]);
      SpellNotEmpty(u, p);
      ScanControlEscape(u, s, i, p);
    }
  }

  lemma ControlIsBytes(p: Piece)
    requires p.Control?
    ensures Spell(p) == p.bytes
  {
  }

  lemma SpellNotEmpty(u: Unicode, p: Piece)
    requires PieceOk(u, p)
    ensures Spell(p) != ""
  {
    hide IsControlCode;
  }

  /** Where the scanner starts, a disguised sensitive name is found as a whole
      when it is not continued. */
  lemma DisguisedNameFound(u: Unicode, s: string, i: nat, pieces: seq<Piece>)
    requires Spelling(u, pieces) && pieces != [] && IsLetter(pieces[0])
    requires i + |SpellAll(pieces)| <= |s| && s[i..i + |SpellAll(pieces)|] == SpellAll(pieces)
    requires i + |SpellAll(pieces)| == |s| || ScanAt(u, s, i + |SpellAll(pieces)|, true).Stop?
    ensures NameFrom(u, s, i, i, "") == Name(i, i + |SpellAll(pieces)|, MeansAll(pieces))
    ensures IsSensitiveName(MeansAll(pieces)) ==> Span(i, i + |SpellAll(pieces)|) in NamesFrom(u, s, i)
  {
    hide ScanAt, Spell, SpellAll, MeansAll, IsSensitiveName, Spelling, IsLetter, NamesFrom;
    assert "" + MeansAll(pieces) == MeansAll(pieces);
    SpelledName(u, s, i, i, "", pieces);
    RestIsSpelling(u, pieces);
    FirstPieceMeans(u, pieces);
    NameListed(u, s, i);
  }

  lemma NameListed(u: Unicode, s: string, i: nat)
    requires i < |s|
    ensures var name := NameFrom(u, s, i, i, "");
            name.end > name.start && IsSensitiveName(name.text) ==> Span(name.start, name.end) in NamesFrom(u, s, i)
  {
    hide NameFrom, IsSensitiveName;
  }

  lemma FirstPieceMeans(u: Unicode, pieces: seq<Piece>)
    requires pieces != [] && IsLetter(pieces[0]) && PieceOk(u, pieces[0])
    ensures MeansAll(pieces) != "" && SpellAll(pieces) != ""
  {
    hide HexValue;
  }
}
