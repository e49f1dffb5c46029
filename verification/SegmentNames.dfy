/** File names in the event store. A segment's name carries its sequence number,
    event count, size and digest; a claim's name is a hex digest. */
module SegmentNames {
  import opened Model

  datatype Fields = Fields(sequence: nat, events: nat, size: nat, digest: string)

  // ---------- Fixed-width numbers ----------

  function Pow(base: nat, n: nat): nat {
    if n == 0 then 1 else base * Pow(base, n - 1)
  }

  function DigitChar(d: nat): char
    requires d < 16
  {
    "0123456789abcdef"[d]
  }

  /** Go's digit values; hexadecimal digits may be upper case. */
  function DigitValue(c: char): nat {
    if '0' <= c <= '9' then (c as int) - ('0' as int)
    else if 'a' <= c <= 'f' then (c as int) - ('a' as int) + 10
    else if 'A' <= c <= 'F' then (c as int) - ('A' as int) + 10
    else 16
  }

  predicate IsNumber(base: nat, s: string) {
    s != [] && forall i :: 0 <= i < |s| ==> DigitValue(s[i]) < base
  }

  function Digits(base: nat, n: nat, width: nat): (s: string)
    requires 2 <= base <= 16
    ensures |s| == width
    ensures forall i :: 0 <= i < width ==> DigitValue(s[i]) < base && s[i] != '-' && s[i] != '+' && s[i] != '.'
  {
    if width == 0 then [] else Digits(base, n / base, width - 1) + [DigitChar(n % base)]
  }

  function Value(base: nat, s: string): nat {
    if s == [] then 0 else Value(base, s[..|s| - 1]) * base + DigitValue(s[|s| - 1])
  }

  lemma ValueAppend(base: nat, s: string, c: char)
    ensures Value(base, s + [c]) == Value(base, s) * base + DigitValue(c)
  {
    assert (s + [c])[..|s|] == s;
  }

  lemma {:induction false} DigitsValue(base: nat, n: nat, width: nat)
    requires base == 10 || base == 16
    requires n < Pow(base, width)
    ensures Value(base, Digits(base, n, width)) == n
  {
    if width > 0 {
      QuotientBound(base, n, width);
      DigitsValue(base, n / base, width - 1);
      LastDigit(base, n, width);
      hide Value, Digits, Pow;
      assert n / base * base + n % base == n;
    }
  }

  lemma QuotientBound(base: nat, n: nat, width: nat)
    requires (base == 10 || base == 16) && width > 0 && n < Pow(base, width)
    ensures n / base < Pow(base, width - 1)
  {
    if base == 10 {
      assert n < 10 * Pow(10, width - 1);
    } else {
      assert n < 16 * Pow(16, width - 1);
    }
  }

  lemma LastDigit(base: nat, n: nat, width: nat)
    requires 2 <= base <= 16 && width > 0
    ensures Value(base, Digits(base, n, width)) == Value(base, Digits(base, n / base, width - 1)) * base + n % base
  {
    hide Value;
    var last := DigitChar(n % base);
    assert Digits(base, n, width) == Digits(base, n / base, width - 1) + [last];
    assert DigitValue(last) == n % base;
    hide Digits, DigitValue;
    ValueAppend(base, Digits(base, n / base, width - 1), last);
  }

  // ---------- Segment names ----------

  const SEQUENCE_LIMIT: nat := 0x1_0000_0000_0000_0000
  const SIZE_LIMIT: nat := 0x8000_0000_0000_0000
  const COUNT_LIMIT: nat := 10_000_000_000

  predicate IsHex(s: string) {
    forall i :: 0 <= i < |s| ==> DigitValue(s[i]) < 16
  }

  predicate HasSuffix(s: string, suffix: string) {
    |suffix| <= |s| && s[|s| - |suffix|..] == suffix
  }

  function NameTail(x: Fields): string {
    "-" + (Digits(10, x.events, 10) + "-" + (Digits(16, x.size, 16) + "-" + x.digest)) + ".jsonl"
  }

  function Format(x: Fields): string {
    Digits(10, x.sequence, 20) + NameTail(x)
  }

  function Split(s: string, sep: char): (parts: seq<string>)
    ensures parts != []
  {
    if s == [] then [[]]
    else
      var rest := Split(s[1..], sep);
      if s[0] == sep then [[]] + rest else [[s[0]] + rest[0]] + rest[1..]
  }

  /** A signed parse accepts a leading plus sign; a minus sign cannot occur in a part. */
  function Unsigned(s: string): string {
    if s != [] && s[0] == '+' then s[1..] else s
  }

  function ParseName(name: string): Option<Fields> {
    if !HasSuffix(name, ".jsonl") then None
    else
      var parts := Split(name[..|name| - 6], '-');
      if |parts| != 4 || |parts[0]| != 20 || |parts[1]| != 10 || |parts[2]| != 16 || |parts[3]| != 64 then None
      else if !IsNumber(10, parts[0]) || !IsNumber(10, Unsigned(parts[1]))
          || !IsNumber(16, Unsigned(parts[2])) then None
      else
        var x := Fields(Value(10, parts[0]), Value(10, Unsigned(parts[1])), Value(16, Unsigned(parts[2])), parts[3]);
        if x.sequence >= SEQUENCE_LIMIT || x.size >= SIZE_LIMIT || !IsHex(parts[3]) then None
        else if x.sequence == 0 || x.events == 0 || x.size == 0 then None
        else Some(x)
  }

  /** Digits are these characters and no others. */
  lemma DigitsAre(c: char)
    ensures DigitValue(c) < 16 <==> c in "0123456789abcdefABCDEF"
    ensures forall d: nat :: d < 16 ==> DigitValue("0123456789abcdef"[d]) == d == DigitValue("0123456789ABCDEF"[d])
  {
  }

  method ParseNumber(base: nat, s: string) returns (r: Option<nat>)
    requires base == 10 || base == 16
    ensures r == if IsNumber(base, s) then Some(Value(base, s)) else None
  {
    if |s| == 0 { return None; }
    var n := 0;
    var i := 0;
    while i < |s|
      invariant 0 <= i <= |s| && n == Value(base, s[..i])
      invariant forall k :: 0 <= k < i ==> DigitValue(s[k]) < base
    {
      var d := DigitValue(s[i]);
      if d >= base { return None; }
      assert s[..i + 1] == s[..i] + [s[i]];
      ValueAppend(base, s[..i], s[i]);
      n := n * base + d;
      i := i + 1;
    }
    assert s[..i] == s;
    r := Some(n);
  }

  method IsHexText(s: string) returns (ok: bool)
    ensures ok <==> IsHex(s)
  {
    var i := 0;
    while i < |s|
      invariant 0 <= i <= |s| && forall k :: 0 <= k < i ==> DigitValue(s[k]) < 16
    {
      if DigitValue(s[i]) >= 16 { return false; }
      i := i + 1;
    }
    ok := true;
  }

  method ParseEventSegmentName(name: string) returns (r: Option<Fields>)
    ensures r == ParseName(name)
  {
    hide Split, Value, IsNumber, IsHex;
    var n := |name|;
    if n < 6 || name[n - 6..] != ".jsonl" { return None; }
    var parts := Split(name[..n - 6], '-');
    if |parts| != 4 { return None; }
    if |parts[0]| != 20 || |parts[1]| != 10 || |parts[2]| != 16 || |parts[3]| != 64 { return None; }
    var count := if parts[1][0] == '+' then parts[1][1..] else parts[1];
    var bytes := if parts[2][0] == '+' then parts[2][1..] else parts[2];
    var sequence := ParseNumber(10, parts[0]);
    var events := ParseNumber(10, count);
    var size := ParseNumber(16, bytes);
    var digest := IsHexText(parts[3]);
    if sequence.None? || events.None? || size.None? { return None; }
    if sequence.value >= 0x1_0000_0000_0000_0000 || size.value >= 0x8000_0000_0000_0000 || !digest { return None; }
    if sequence.value == 0 || events.value == 0 || size.value == 0 { return None; }
    r := Some(Fields(sequence.value, events.value, size.value, parts[3]));
  }

  predicate Formattable(x: Fields) {
    && 0 < x.sequence < SEQUENCE_LIMIT && 0 < x.events < COUNT_LIMIT && 0 < x.size < SIZE_LIMIT
    && |x.digest| == 64 && IsHex(x.digest)
  }

  lemma {:induction false} SplitPart(part: string, rest: string, sep: char)
    requires sep !in part
    ensures Split(part + [sep] + rest, sep) == [part] + Split(rest, sep)
    ensures Split(part, sep) == [part]
  {
    if part == [] {
      assert ([] + [sep] + rest)[1..] == rest;
    } else {
      SplitPart(part[1..], rest, sep);
      assert (part + [sep] + rest)[1..] == part[1..] + [sep] + rest;
      assert [part[0]] + part[1..] == part;
    }
  }

  lemma SplitFour(a: string, b: string, c: string, d: string)
    requires '-' !in a && '-' !in b && '-' !in c && '-' !in d
    ensures Split(a + "-" + (b + "-" + (c + "-" + d)), '-') == [a, b, c, d]
  {
    hide Split;
    var cd := c + "-" + d;
    var bcd := b + "-" + cd;
    SplitPart(d, [], '-');
    SplitPart(c, d, '-');
    SplitPart(b, cd, '-');
    SplitPart(a, bcd, '-');
  }

  lemma Powers()
    ensures Pow(10, 20) == 100_000_000_000_000_000_000
    ensures Pow(10, 10) == COUNT_LIMIT
    ensures Pow(16, 16) == SEQUENCE_LIMIT
  {
    assert Pow(10, 5) == 100_000;
    assert Pow(10, 10) == 10_000_000_000;
    assert Pow(10, 15) == 1_000_000_000_000_000;
    assert Pow(10, 20) == 100_000_000_000_000_000_000;
    assert Pow(16, 4) == 0x1_0000;
    assert Pow(16, 8) == 0x1_0000_0000;
    assert Pow(16, 12) == 0x1_0000_0000_0000;
  }

  /** A segment name parses back to its fields. */
  lemma NameRoundTrip(x: Fields)
    requires Formattable(x)
    ensures ParseName(Format(x)) == Some(x)
  {
    var a, b, c := Digits(10, x.sequence, 20), Digits(10, x.events, 10), Digits(16, x.size, 16);
    var stem := a + "-" + (b + "-" + (c + "-" + x.digest));
    assert Format(x) == stem + ".jsonl";
    assert Format(x)[..|Format(x)| - 6] == stem;
    SplitFour(a, b, c, x.digest);
    Powers();
    DigitsValue(10, x.sequence, 20);
    DigitsValue(10, x.events, 10);
    DigitsValue(16, x.size, 16);
  }

  // ---------- Lexicographic order ----------

  predicate Before(a: string, b: string) {
    b != [] && (a == [] || a[0] < b[0] || (a[0] == b[0] && Before(a[1..], b[1..])))
  }

  lemma {:induction false} BeforeExtends(a: string, b: string, s: string, t: string)
    requires |a| == |b| && Before(a, b)
    ensures Before(a + s, b + t)
  {
    if a[0] == b[0] {
      BeforeExtends(a[1..], b[1..], s, t);
      assert (a + s)[1..] == a[1..] + s && (b + t)[1..] == b[1..] + t;
    }
  }

  lemma {:induction false} BeforeTail(p: string, a: string, b: string)
    requires Before(a, b)
    ensures Before(p + a, p + b)
  {
    if p == [] {
      assert p + a == a && p + b == b;
    } else {
      BeforeTail(p[1..], a, b);
      assert (p + a)[1..] == p[1..] + a && (p + b)[1..] == p[1..] + b;
    }
  }

  lemma {:induction false} DigitsOrder(m: nat, n: nat, width: nat)
    requires m < n < Pow(10, width)
    ensures Before(Digits(10, m, width), Digits(10, n, width))
  {
    if m / 10 == n / 10 {
      BeforeTail(Digits(10, m / 10, width - 1), [DigitChar(m % 10)], [DigitChar(n % 10)]);
    } else {
      DigitsOrder(m / 10, n / 10, width - 1);
      BeforeExtends(Digits(10, m / 10, width - 1), Digits(10, n / 10, width - 1), [DigitChar(m % 10)],
          [DigitChar(n % 10)]);
    }
  }

  /** Names sort as their sequence numbers do. */
  lemma NamesSortBySequence(x: Fields, y: Fields)
    requires Formattable(x) && Formattable(y) && x.sequence < y.sequence
    ensures Before(Format(x), Format(y))
  {
    Powers();
    DigitsOrder(x.sequence, y.sequence, 20);
    BeforeExtends(Digits(10, x.sequence, 20), Digits(10, y.sequence, 20), NameTail(x), NameTail(y));
  }

  // ---------- Temporary files and claims ----------

  predicate IsTemp(name: string) {
    && HasSuffix(name, ".tmp")
    && (".event-segment-" <= name || ".event-state-" <= name || ".event-id-" <= name)
  }

  predicate IsClaimName(name: string) {
    |name| == 69 && HasSuffix(name, ".json") && IsHex(name[..64])
  }

  method IsTempName(name: string) returns (temp: bool)
    ensures temp <==> IsTemp(name)
  {
    var n := |name|;
    if n < 4 || name[n - 4..] != ".tmp" { return false; }
    temp := (n >= 15 && name[..15] == ".event-segment-") || (n >= 13 && name[..13] == ".event-state-")
            || (n >= 10 && name[..10] == ".event-id-");
  }

  method IsClaimFile(name: string) returns (ok: bool)
    ensures ok <==> IsClaimName(name)
  {
    var n := |name|;
    if n < 5 || name[n - 5..] != ".json" || n - 5 != 64 { return false; }
    ok := IsHexText(name[..n - 5]);
  }

  /** The file of an ID is named by the hexadecimal digest of the ID. */
  lemma DigestNamesClaim(digest: string)
    requires |digest| == 64 && IsHex(digest)
    ensures IsClaimName(digest + ".json")
  {
    assert (digest + ".json")[..64] == digest;
  }

  lemma TempStartsWithDot(name: string)
    ensures IsTemp(name) ==> name[0] == '.'
  {
  }

  lemma NameNotTemp(x: Fields)
    ensures !IsTemp(Format(x))
  {
    TempStartsWithDot(Format(x));
    assert Format(x)[0] == Digits(10, x.sequence, 20)[0];
  }

  lemma ClaimNotTemp(name: string)
    requires IsClaimName(name)
    ensures !IsTemp(name)
  {
    TempStartsWithDot(name);
    assert DigitValue(name[..64][0]) < 16;
  }
}
