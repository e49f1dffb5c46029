/** The relevant_files patterns: how they are compiled, what they match, and the
    test that keeps submodules out (internal/evidence/fingerprint.go). Paths and
    patterns are sequences of Unicode characters here. */
module Glob {
  import opened Model
  import opened SegmentNames

  /** The pieces of the regular expression a pattern is compiled to. */
  datatype Token =
    | Lit(c: char)
    | One       // [^/]
    | Star      // [^/]*
    | Any       // .*
    | OptDirs   // (?:.*/)?

  // ---------- Normalising and checking a pattern ----------

  predicate IsSpace(c: char) {
    || c in "\t\n\r \U{000B}\U{000C}\U{0085}\U{00A0}\U{1680}\U{2028}\U{2029}\U{202F}\U{205F}\U{3000}"
    || '\U{2000}' <= c <= '\U{200A}'
  }

  /** White space by code point (Unicode's White_Space property). */
  lemma WhiteSpace(c: char)
    ensures IsSpace(c) <==>
            || 9 <= c as int <= 13 || c as int in {0x20, 0x85, 0xA0, 0x1680, 0x2028, 0x2029, 0x202F, 0x205F, 0x3000}
            || 0x2000 <= c as int <= 0x200A
  {
  }

  function TrimLeft(s: string): string {
    if s != [] && IsSpace(s[0]) then TrimLeft(s[1..]) else s
  }

  function TrimRight(s: string): string {
    if s != [] && IsSpace(s[|s| - 1]) then TrimRight(s[..|s| - 1]) else s
  }

  function Trim(s: string): string { TrimRight(TrimLeft(s)) }

  /** Trimming cuts white space off both ends, all of it, and nothing else. */
  lemma {:induction false} TrimCuts(s: string)
    ensures exists a: nat, b: nat :: a <= b <= |s| && Trim(s) == s[a..b]
              && (forall i :: 0 <= i < a || b <= i < |s| ==> IsSpace(s[i]))
    ensures Trim(s) != "" ==> !IsSpace(Trim(s)[0]) && !IsSpace(Trim(s)[|Trim(s)| - 1])
  {
    hide IsSpace;
    var a := LeftCut(s);
    var b := RightCut(s[a..]);
    assert Trim(s) == s[a..][..b] == s[a..a + b];
    assert forall i :: a + b <= i < |s| ==> s[i] == s[a..][i - a];
    if b > 0 { assert Trim(s)[0] == s[a..][0]; }
  }

  lemma {:induction false} LeftCut(s: string) returns (a: nat)
    ensures a <= |s| && TrimLeft(s) == s[a..] && (a < |s| ==> !IsSpace(s[a]))
    ensures forall i :: 0 <= i < a ==> IsSpace(s[i])
  {
    hide IsSpace;
    a := 0;
    if s != [] && IsSpace(s[0]) {
      var n := LeftCut(s[1..]);
      a := n + 1;
      assert s[1..][n..] == s[a..];
      assert forall i :: 0 < i < a ==> s[i] == s[1..][i - 1];
    } else {
      assert s[0..] == s;
    }
  }

  lemma {:induction false} RightCut(s: string) returns (b: nat)
    ensures b <= |s| && TrimRight(s) == s[..b] && (b > 0 ==> !IsSpace(s[b - 1]))
    ensures forall i :: b <= i < |s| ==> IsSpace(s[i])
  {
    hide IsSpace;
    b := |s|;
    if s != [] && IsSpace(s[|s| - 1]) {
      b := RightCut(s[..|s| - 1]);
      assert s[..|s| - 1][..b] == s[..b];
      assert forall i :: b <= i < |s| - 1 ==> s[i] == s[..|s| - 1][i];
    } else {
      assert s[..|s|] == s;
    }
  }

  predicate ValidPattern(pattern: string) {
    var p := Trim(pattern);
    p != [] && p[0] != '/' && '\0' !in p && ".." !in Split(p, '/')
  }

  // ---------- What a compiled pattern matches ----------

  /** The strings one piece of the expression matches; a dot matches no newline. */
  predicate Takes(token: Token, s: string) {
    match token
    case Lit(c) => s == [c]
    case One => |s| == 1 && s[0] != '/'
    case Star => '/' !in s
    case Any => '\n' !in s
    case OptDirs => s == [] || (s[|s| - 1] == '/' && '\n' !in s)
  }

  /** The whole of `s` matches `tokens`. */
  predicate Match(tokens: seq<Token>, s: string) {
    if tokens == [] then s == []
    else exists k :: 0 <= k <= |s| && Takes(tokens[0], s[..k]) && Match(tokens[1..], s[k..])
  }

  // ---------- Compiling ----------

  /** The next piece of a pattern, and how many characters it takes. */
  function Next(p: string): (r: (Token, nat))
    requires p != []
    ensures 0 < r.1 <= |p|
  {
    if p[0] == '*' then
      if |p| >= 2 && p[1] == '*' then
        if |p| >= 3 && p[2] == '/' then (OptDirs, 3) else (Any, 2)
      else (Star, 1)
    else if p[0] == '?' then (One, 1)
    else (Lit(p[0]), 1)
  }

  function Compile(p: string): seq<Token> {
    if p == [] then [] else [Next(p).0] + Compile(p[Next(p).1..])
  }

  method CompileGlob(pattern: string) returns (r: Option<seq<Token>>)
    ensures r.Some? <==> ValidPattern(pattern)
    ensures r.Some? ==> r.value == Compile(Trim(pattern))
  {
    hide Trim, Split, Compile;
    var p := Trim(pattern);
    if p == [] || p[0] == '/' || '\0' in p { return None; }
    if ".." in Split(p, '/') { return None; }
    var tokens: seq<Token> := [];
    var i := 0;
    CompileNothing();
    assert p[0..] == p;
    while i < |p|
      invariant 0 <= i <= |p|
      invariant tokens + Compile(p[i..]) == Compile(p)
    {
      ghost var start := i;
      CompileStep(p, i);
      if p[i] == '*' {
        if i + 1 < |p| && p[i + 1] == '*' {
          i := i + 2;
          if i < |p| && p[i] == '/' {
            i := i + 1;
            tokens := tokens + [OptDirs];
          } else {
            tokens := tokens + [Any];
          }
          assert Next(p[start..]) == (tokens[|tokens| - 1], i - start);
          continue;
        }
        tokens := tokens + [Star];
        i := i + 1;
        continue;
      }
      tokens := tokens + [if p[i] == '?' then One else Lit(p[i])];
      i := i + 1;
    }
    assert p[i..] == [];
    r := Some(tokens);
  }

  lemma CompileNothing()
    ensures Compile([]) == []
  {
  }

  lemma CompileStep(p: string, i: nat)
    requires i < |p|
    ensures var n := Next(p[i..]).1;
            && Compile(p[i..]) == [Next(p[i..]).0] + Compile(p[i + n..])
            && forall tokens: seq<Token> :: tokens + Compile(p[i..]) == tokens + [Next(p[i..]).0] + Compile(p[i + n..])
  {
    hide Next;
    var n := Next(p[i..]).1;
    assert p[i..][n..] == p[i + n..];
    forall tokens: seq<Token> ensures tokens + Compile(p[i..]) == tokens + [Next(p[i..]).0] + Compile(p[i + n..]) {
      assert tokens + ([Next(p[i..]).0] + Compile(p[i + n..])) == tokens + [Next(p[i..]).0] + Compile(p[i + n..]);
    }
  }

  // ---------- Literal text ----------

  predicate Plain(p: string) { '*' !in p && '?' !in p }

  lemma MatchLit(c: char, tokens: seq<Token>, s: string)
    ensures Match([Lit(c)] + tokens, s) <==> s != [] && s[0] == c && Match(tokens, s[1..])
  {
    assert ([Lit(c)] + tokens)[1..] == tokens;
    if Match([Lit(c)] + tokens, s) {
      var k :| 0 <= k <= |s| && Takes(Lit(c), s[..k]) && Match(tokens, s[k..]);
      assert k == 1 && s[0] == s[..k][0];
    }
    if s != [] && s[0] == c && Match(tokens, s[1..]) {
      assert s[..1] == [c] && Takes(Lit(c), s[..1]);
    }
  }

  lemma CompileLit(p: string)
    requires p != [] && p[0] != '*' && p[0] != '?'
    ensures Compile(p) == [Lit(p[0])] + Compile(p[1..])
  {
  }

  /** Every match of a pattern begins with the text before its first wildcard. */
  lemma {:induction false} LiteralPrefix(lit: string, rest: string, s: string)
    requires Plain(lit) && Match(Compile(lit + rest), s)
    ensures lit <= s && Match(Compile(rest), s[|lit|..])
  {
    hide Compile, Match;
    if lit == [] {
      assert lit + rest == rest && s[0..] == s;
    } else {
      assert (lit + rest)[1..] == lit[1..] + rest;
      CompileLit(lit + rest);
      MatchLit(lit[0], Compile(lit[1..] + rest), s);
      LiteralPrefix(lit[1..], rest, s[1..]);
      assert s == [s[0]] + s[1..] && lit == [lit[0]] + lit[1..];
    }
  }

  /** A pattern without wildcards matches itself and nothing else. */
  lemma {:induction false} PlainMatchesItself(p: string, s: string)
    requires Plain(p)
    ensures Match(Compile(p), s) <==> s == p
  {
    if p != [] {
      hide Compile, Match;
      CompileLit(p);
      MatchLit(p[0], Compile(p[1..]), s);
      if s != [] {
        PlainMatchesItself(p[1..], s[1..]);
        assert s == [s[0]] + s[1..] && p == [p[0]] + p[1..];
      }
    }
  }

  // ---------- Wildcards and directories ----------

  function Slashes(s: string): nat {
    if s == [] then 0 else (if s[0] == '/' then 1 else 0) + Slashes(s[1..])
  }

  lemma {:induction false} SlashesConcat(a: string, b: string)
    ensures Slashes(a + b) == Slashes(a) + Slashes(b)
  {
    if a == [] {
      assert a + b == b;
    } else {
      assert (a + b)[1..] == a[1..] + b;
      SlashesConcat(a[1..], b);
    }
  }

  lemma {:induction false} NoSlashes(s: string)
    requires '/' !in s
    ensures Slashes(s) == 0
  {
    if s != [] { NoSlashes(s[1..]); }
  }

  ghost predicate NoDoubleStar(p: string) {
    forall i :: 0 <= i < |p| - 1 ==> !(p[i] == '*' && p[i + 1] == '*')
  }

  /** Without a double star a match has exactly the pattern's directory depth:
      one star and a question mark never cross a slash. */
  lemma {:induction false} SameDepth(p: string, s: string)
    requires NoDoubleStar(p) && Match(Compile(p), s)
    ensures Slashes(s) == Slashes(p)
  {
    if p != [] {
      hide Match, Compile, Takes;
      CompileOne(p);
      var k := FirstPiece(Next(p).0, Compile(p[1..]), s);
      SameDepth(p[1..], s[k..]);
      assert s == s[..k] + s[k..];
      SlashesConcat(s[..k], s[k..]);
      PieceDepth(Next(p).0, s[..k]);
    } else {
      assert s == [];
    }
  }

  lemma CompileOne(p: string)
    requires NoDoubleStar(p) && p != []
    ensures Next(p).1 == 1 && Next(p).0 == (if p[0] == '*' then Star else if p[0] == '?' then One else Lit(p[0]))
    ensures Compile(p) == [Next(p).0] + Compile(p[1..]) && NoDoubleStar(p[1..])
  {
    forall i | 0 <= i < |p| - 2 ensures !(p[1..][i] == '*' && p[1..][i + 1] == '*') {
      assert p[1..][i] == p[i + 1] && p[1..][i + 1] == p[i + 2];
    }
  }

  lemma FirstPiece(token: Token, rest: seq<Token>, s: string) returns (k: nat)
    requires Match([token] + rest, s)
    ensures k <= |s| && Takes(token, s[..k]) && Match(rest, s[k..])
  {
    hide Takes;
    assert ([token] + rest)[1..] == rest;
    k :| 0 <= k <= |s| && Takes(token, s[..k]) && Match(rest, s[k..]);
  }

  lemma PieceDepth(token: Token, piece: string)
    requires Takes(token, piece) && (token.Lit? || token.One? || token.Star?)
    ensures Slashes(piece) == if token == Lit('/') then 1 else 0
  {
    if token != Lit('/') { NoSlashes(piece); }
  }

  /** A question mark stands for one character other than a slash. */
  lemma QuestionMark(p: string, s: string)
    ensures Match(Compile("?" + p), s) <==> s != "" && s[0] != '/' && Match(Compile(p), s[1..])
  {
    assert ("?" + p)[1..] == p;
    assert Compile("?" + p) == [One] + Compile(p);
    OnePiece(One, Compile(p), s);
    if s != "" && s[0] != '/' && Match(Compile(p), s[1..]) {
      assert Takes(One, s[..1]);
    }
  }

  lemma OnePiece(token: Token, rest: seq<Token>, s: string)
    ensures Match([token] + rest, s) <==> exists k :: 0 <= k <= |s| && Takes(token, s[..k]) && Match(rest, s[k..])
  {
    hide Takes;
    assert ([token] + rest)[1..] == rest;
  }

  /** One star stands for any text within one directory. */
  lemma OneStar(p: string, s: string)
    requires p == "" || p[0] != '*'
    ensures Match(Compile("*" + p), s) <==> exists k :: 0 <= k <= |s| && '/' !in s[..k] && Match(Compile(p), s[k..])
  {
    hide Match;
    assert ("*" + p)[1..] == p;
    assert Compile("*" + p) == [Star] + Compile(p);
    OnePiece(Star, Compile(p), s);
    assert forall k :: 0 <= k <= |s| ==> (Takes(Star, s[..k]) <==> '/' !in s[..k]);
  }

  // Two stars stand for any text without a line break, slashes included.
  lemma TwoStars(p: string, s: string)
    requires p == "" || p[0] != '/'
    ensures Match(Compile("**" + p), s) <==> exists k :: 0 <= k <= |s| && '\n' !in s[..k] && Match(Compile(p), s[k..])
  {
    hide Match;
    assert ("**" + p)[2..] == p;
    assert Compile("**" + p) == [Any] + Compile(p);
    OnePiece(Any, Compile(p), s);
    assert forall k :: 0 <= k <= |s| ==> (Takes(Any, s[..k]) <==> '\n' !in s[..k]);
  }

  // `SomeDirs` holds for what two stars and a slash in front of a pattern add:
  // any number of directories, also none.
  ghost predicate SomeDirs(p: string, s: string) {
    || Match(Compile(p), s)
    || exists k :: 0 < k <= |s| && s[k - 1] == '/' && '\n' !in s[..k] && Match(Compile(p), s[k..])
  }

  lemma DoubleStarSlash(p: string, s: string)
    ensures Match(Compile("**/" + p), s) <==> SomeDirs(p, s)
  {
    assert ("**/" + p)[3..] == p;
    assert Compile("**/" + p) == [OptDirs] + Compile(p);
    OptDirsMatch(Compile(p), s);
  }

  lemma OptDirsMatch(rest: seq<Token>, s: string)
    ensures Match([OptDirs] + rest, s) <==>
            || Match(rest, s)
            || exists k :: 0 < k <= |s| && s[k - 1] == '/' && '\n' !in s[..k] && Match(rest, s[k..])
  {
    assert ([OptDirs] + rest)[1..] == rest;
    assert s[0..] == s;
    forall k | 0 <= k <= |s|
      ensures Takes(OptDirs, s[..k]) <==> k == 0 || (s[k - 1] == '/' && '\n' !in s[..k])
    {
      if k > 0 { assert s[..k][k - 1] == s[k - 1]; }
    }
    OnePiece(OptDirs, rest, s);
  }

  // ---------- Submodules ----------

  function FirstWildcard(p: string): (k: nat)
    ensures k <= |p| && Plain(p[..k])
    ensures k < |p| ==> p[k] == '*' || p[k] == '?'
  {
    if p == [] || p[0] == '*' || p[0] == '?' then 0
    else
      var k := FirstWildcard(p[1..]);
      assert p[..k + 1] == [p[0]] + p[1..][..k];
      k + 1
  }

  /** The directory prefix of everything strictly below a submodule. */
  function Descendants(gitlink: string): string {
    (if gitlink != [] && gitlink[|gitlink| - 1] == '/' then gitlink[..|gitlink| - 1] else gitlink) + "/"
  }

  predicate MayCoverGitlink(pattern: string, tokens: seq<Token>, gitlink: string) {
    Match(tokens, gitlink) ||
    var p := Trim(pattern);
    var descendant := Descendants(gitlink);
    var wildcard := FirstWildcard(p);
    if wildcard == |p| then descendant <= p
    else p[..wildcard] <= descendant || descendant <= p[..wildcard]
  }

  /** The conservative test is sound: a pattern that matches the submodule or
      any path below it is always reported. */
  lemma GitlinkTestIsSound(pattern: string, gitlink: string, path: string)
    requires Match(Compile(Trim(pattern)), path)
    requires path == gitlink || Descendants(gitlink) <= path
    ensures MayCoverGitlink(pattern, Compile(Trim(pattern)), gitlink)
  {
    hide Trim, Compile, Match, Descendants;
    var p := Trim(pattern);
    var w := FirstWildcard(p);
    assert p == p[..w] + p[w..];
    LiteralPrefix(p[..w], p[w..], path);
    if w == |p| && path != gitlink {
      assert p[..w] == p;
      PlainMatchesItself(p, path);
    }
  }

  /** A plain pattern is reported only when it names the submodule or a path
      below it. */
  lemma PlainGitlinkTestIsExact(pattern: string, gitlink: string)
    requires Plain(Trim(pattern))
    ensures MayCoverGitlink(pattern, Compile(Trim(pattern)), gitlink)
            <==> exists path :: Match(Compile(Trim(pattern)), path) && (path == gitlink || Descendants(gitlink) <= path)
  {
    hide Trim, Compile, Match, Descendants;
    var p := Trim(pattern);
    PlainMatchesItself(p, p);
    PlainMatchesItself(p, gitlink);
    assert FirstWildcard(p) == |p|;
    forall path | Match(Compile(p), path) && (path == gitlink || Descendants(gitlink) <= path)
      ensures MayCoverGitlink(pattern, Compile(p), gitlink)
    {
      GitlinkTestIsSound(pattern, gitlink, path);
    }
  }

  lemma {:induction false} FirstWildcardIs(p: string, w: nat)
    requires w < |p| && Plain(p[..w]) && (p[w] == '*' || p[w] == '?')
    ensures FirstWildcard(p) == w
  {
    if w > 0 {
      assert p[0] in p[..w] && p[1..][..w - 1] == p[..w][1..];
      FirstWildcardIs(p[1..], w - 1);
    }
  }

  predicate StartsWith(s: string, prefix: string) { prefix <= s }

  /** A pattern with a wildcard is reported exactly when it matches the submodule
      itself, or some path below it begins with the text before the wildcard. */
  lemma WildcardGitlinkTest(pattern: string, gitlink: string, w: nat)
    requires var p := Trim(pattern); w < |p| && Plain(p[..w]) && (p[w] == '*' || p[w] == '?')
    ensures MayCoverGitlink(pattern, Compile(Trim(pattern)), gitlink) <==>
            || Match(Compile(Trim(pattern)), gitlink)
            || exists path :: StartsWith(path, Trim(pattern)[..w]) && StartsWith(path, Descendants(gitlink))
  {
    hide Trim, Compile, Match, Descendants;
    var p, below := Trim(pattern), Descendants(gitlink);
    FirstWildcardIs(p, w);
    if p[..w] <= below { assert StartsWith(below, p[..w]) && StartsWith(below, below); }
    if below <= p[..w] { assert StartsWith(p[..w], p[..w]) && StartsWith(p[..w], below); }
    if path :| StartsWith(path, p[..w]) && StartsWith(path, below) {
      if w <= |below| { assert p[..w] == below[..w]; } else { assert below == p[..w][..|below|]; }
    }
  }

  // ---------- Patterns that were validated ----------

  lemma {:induction false} TrimKeeps(s: string, c: char)
    requires !IsSpace(c)
    ensures c in TrimLeft(s) <==> c in s
    ensures c in TrimRight(s) <==> c in s
  {
    hide IsSpace;
    if s != [] && IsSpace(s[0]) {
      TrimKeeps(s[1..], c);
      assert s == [s[0]] + s[1..];
    }
    if s != [] && IsSpace(s[|s| - 1]) {
      TrimKeeps(s[..|s| - 1], c);
      assert s == s[..|s| - 1] + [s[|s| - 1]];
    }
  }

  /** A valid pattern is not empty and contains no NUL, also before trimming. */
  lemma ValidIsNulFree(pattern: string)
    requires ValidPattern(pattern)
    ensures pattern != [] && '\0' !in pattern
  {
    TrimKeeps(pattern, '\0');
    TrimKeeps(TrimLeft(pattern), '\0');
  }
}
