/** One gate's memo of fingerprints (internal/evidence/validate.go). */
module FingerprintMemo {
  import opened Model
  import opened SegmentNames
  import opened Glob
  import opened Fingerprint
  import opened Deadline

  /** The patterns joined by NUL bytes. */
  function Key(patterns: seq<string>): string {
    if patterns == [] then []
    else if |patterns| == 1 then patterns[0]
    else patterns[0] + ['\0'] + Key(patterns[1..])
  }

  /** What configuration validation guarantees of a pattern list. */
  ghost predicate Clean(patterns: seq<string>) {
    forall p <- patterns :: p != [] && '\0' !in p
  }

  lemma ValidatedIsClean(patterns: seq<string>)
    requires PatternsOk(patterns)
    ensures Clean(patterns)
  {
    hide ValidPattern;
    forall p <- patterns ensures p != [] && '\0' !in p { ValidIsNulFree(p); }
  }

  lemma {:induction false} SplitKey(patterns: seq<string>)
    requires Clean(patterns) && patterns != []
    ensures Split(Key(patterns), '\0') == patterns && Key(patterns) != []
  {
    hide Split;
    SplitPart(patterns[0], Key(patterns[1..]), '\0');
    if |patterns| > 1 {
      assert forall p <- patterns[1..] :: p in patterns;
      SplitKey(patterns[1..]);
      assert patterns == [patterns[0]] + patterns[1..];
    }
  }

  /** Validated pattern lists have different keys. */
  lemma KeyInjective(a: seq<string>, b: seq<string>)
    requires Clean(a) && Clean(b) && Key(a) == Key(b)
    ensures a == b
  {
    hide Clean, Split;
    if a != [] { SplitKey(a); }
    if b != [] { SplitKey(b); }
  }

  /** Without validation, different lists can share a key. */
  lemma UnvalidatedKeysCollide()
    ensures Key(["a\0b"]) == Key(["a", "b"]) && ["a\0b"] != ["a", "b"]
  {
    assert ["a", "b"][1..] == ["b"];
    assert "a\0b" == "a" + ['\0'] + "b";
  }

  type Answer = Result<(string, nat), FingerprintError>

  /** `r` is what computing the fingerprint afresh returns, up to an expiry. */
  ghost predicate Answers(h: Hashes, w: World, patterns: seq<string>, r: Answer, expired: bool) {
    && (r.Ok? ==> Computable(h, w, patterns) && r.value == (FingerprintOf(h, w, patterns), |Relevant(w, patterns)|))
    && (r.Err? ==> expired || !Computable(h, w, patterns))
  }

  /** Every remembered answer is right for the one list that has its key. */
  ghost predicate Remembers(h: Hashes, w: World, results: map<string, Answer>, expired: bool) {
    forall patterns :: Clean(patterns) && Key(patterns) in results
        ==> Answers(h, w, patterns, results[Key(patterns)], expired)
  }

  lemma RemembersMore(h: Hashes, w: World, results: map<string, Answer>, before: bool, after: bool,
      patterns: seq<string>, r: Answer)
    requires Remembers(h, w, results, before) && (before ==> after)
    requires Clean(patterns) && Answers(h, w, patterns, r, after)
    ensures Remembers(h, w, results[Key(patterns) := r], after)
  {
    hide Key, Clean, Computable, FingerprintOf, Relevant;
    var results' := results[Key(patterns) := r];
    forall other | Clean(other) && Key(other) in results' ensures Answers(h, w, other, results'[Key(other)], after) {
      if Key(other) == Key(patterns) { KeyInjective(other, patterns); }
    }
  }

  lemma RemembersLater(h: Hashes, w: World, results: map<string, Answer>, before: bool, after: bool)
    requires Remembers(h, w, results, before) && (before ==> after)
    ensures Remembers(h, w, results, after)
  {
    hide Key, Clean, Computable, FingerprintOf, Relevant;
  }

  class FingerprintCache {
    const h: Hashes
    var results: map<string, Answer>

    constructor (hashes: Hashes)
      ensures h == hashes && results == map[]
      ensures forall w :: Remembers(h, w, results, false)
    {
      h, results := hashes, map[];
    }

    /** While the repository does not change, a lookup answers what computing
        the fingerprint would. */
    method Fingerprint(ctx: Context, w: World, patterns: seq<string>) returns (r: Answer)
      requires Clean(patterns) && Remembers(h, w, results, ctx.expired)
      modifies this, ctx
      ensures ctx.Later()
      ensures Key(patterns) in results && results[Key(patterns)] == r
      ensures Key(patterns) in old(results) ==> results == old(results)
      ensures Answers(h, w, patterns, r, ctx.expired)
      ensures results == old(results) || results == old(results)[Key(patterns) := r]
      ensures Remembers(h, w, results, ctx.expired)
    {
      hide Clean, Key, Computable, FingerprintOf, Relevant;
      var key := Key(patterns);
      if key in results { return results[key]; }
      ghost var before := ctx.expired;
      r := FingerprintContext(ctx, h, w, patterns);
      RemembersMore(h, w, results, before, ctx.expired, patterns, r);
      results := results[key := r];
    }
  }

  /** With a live context any sequence of lookups returns exactly the uncached answers. */
  method LookupAll(cache: FingerprintCache, ctx: Context, w: World, lists: seq<seq<string>>)
      returns (answers: seq<Answer>)
    requires forall i :: 0 <= i < |lists| ==> Clean(lists[i])
    requires Remembers(cache.h, w, cache.results, ctx.expired)
    modifies cache, ctx
    ensures |answers| == |lists|
    ensures !ctx.expired ==> forall i :: 0 <= i < |lists| ==>
              && (answers[i].Ok? <==> Computable(cache.h, w, lists[i]))
              && (answers[i].Ok? ==> answers[i].value == (FingerprintOf(cache.h, w, lists[i]), |Relevant(w, lists[i])|))
  {
    hide Clean, Key, Computable, FingerprintOf, Relevant, Remembers;
    answers := [];
    var i := 0;
    while i < |lists|
      invariant 0 <= i <= |lists| && |answers| == i
      invariant Remembers(cache.h, w, cache.results, ctx.expired)
      invariant forall k :: 0 <= k < i ==> Answers(cache.h, w, lists[k], answers[k], ctx.expired)
    {
      var r := cache.Fingerprint(ctx, w, lists[i]);
      answers := answers + [r];
      i := i + 1;
    }
  }
}
