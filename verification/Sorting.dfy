/** The library sorts the program relies on: stable sorting by a comparison, and
    the order of strings. */
module Sorting {
  import opened SegmentNames

  /** A strict order in which ties are allowed. */
  ghost predicate WeakOrder<T(!new)>(less: (T, T) -> bool) {
    && (forall a, b :: less(a, b) ==> !less(b, a))
    && (forall a, b, c :: less(a, c) ==> less(a, b) || less(b, c))
  }

  /** Position `p` of `s` belongs before position `q`: it is smaller, or tied and earlier. */
  predicate Goes<T>(less: (T, T) -> bool, s: seq<T>, p: nat, q: nat)
    requires p < |s| && q < |s|
  {
    less(s[p], s[q]) || (!less(s[q], s[p]) && p < q)
  }

  ghost predicate Positions(perm: seq<nat>, n: nat) {
    && |perm| == n
    && (forall i :: 0 <= i < |perm| ==> perm[i] < n)
    && (forall p :: 0 <= p < n ==> p in perm)
  }

  ghost predicate Ranked<T>(less: (T, T) -> bool, s: seq<T>, perm: seq<nat>)
    requires forall i :: 0 <= i < |perm| ==> perm[i] < |s|
  {
    forall i, j :: 0 <= i < j < |perm| ==> Goes(less, s, perm[i], perm[j])
  }

  /** Inserting position `k` after everything it is not smaller than. */
  function InsertPosition<T>(less: (T, T) -> bool, s: seq<T>, perm: seq<nat>, k: nat): (r: seq<nat>)
    requires k < |s| && forall i :: 0 <= i < |perm| ==> perm[i] < |s|
    ensures |r| == |perm| + 1
    ensures forall p :: p in r <==> p in perm || p == k
    ensures forall i :: 0 <= i < |r| ==> r[i] < |s|
  {
    if perm == [] || less(s[k], s[perm[0]]) then [k] + perm
    else
      assert perm == [perm[0]] + perm[1..];
      [perm[0]] + InsertPosition(less, s, perm[1..], k)
  }

  /** The positions of the first `n` elements in sorted order. */
  function SortPositions<T>(less: (T, T) -> bool, s: seq<T>, n: nat): (r: seq<nat>)
    requires n <= |s|
    ensures |r| == n && (forall i :: 0 <= i < |r| ==> r[i] < n)
    ensures forall p :: 0 <= p < n ==> p in r
  {
    if n == 0 then []
    else
      var before := SortPositions(less, s, n - 1);
      var r := InsertPosition(less, s, before, n - 1);
      assert forall i :: 0 <= i < |r| ==> r[i] in r;
      r
  }

  function Sort<T>(less: (T, T) -> bool, s: seq<T>): (r: seq<T>)
    ensures |r| == |s|
  {
    var perm := SortPositions(less, s, |s|);
    seq(|s|, i requires 0 <= i < |s| => s[perm[i]])
  }

  lemma {:induction false} InsertRanked<T(!new)>(less: (T, T) -> bool, s: seq<T>, perm: seq<nat>, k: nat)
    requires WeakOrder(less) && k < |s|
    requires forall i :: 0 <= i < |perm| ==> perm[i] < k
    requires Ranked(less, s, perm)
    ensures Ranked(less, s, InsertPosition(less, s, perm, k))
  {
    if perm == [] {
    } else if less(s[k], s[perm[0]]) {
      assert forall j :: 0 < j < |perm| ==> Goes(less, s, perm[0], perm[j]);
    } else {
      var r := InsertPosition(less, s, perm[1..], k);
      InsertRanked(less, s, perm[1..], k);
      forall j | 0 <= j < |r| ensures Goes(less, s, perm[0], r[j]) {
        assert r[j] in r;
        if r[j] != k {
          var i :| 0 <= i < |perm| - 1 && perm[1..][i] == r[j];
          assert Goes(less, s, perm[0], perm[i + 1]);
        }
      }
    }
  }

  lemma {:induction false} PositionsRanked<T(!new)>(less: (T, T) -> bool, s: seq<T>, n: nat)
    requires WeakOrder(less) && n <= |s|
    ensures Ranked(less, s, SortPositions(less, s, n))
  {
    if n > 0 {
      PositionsRanked(less, s, n - 1);
      InsertRanked(less, s, SortPositions(less, s, n - 1), n - 1);
    }
  }

  /** Sorting rearranges, orders, and keeps tied elements in their order. */
  lemma SortIsStable<T(!new)>(less: (T, T) -> bool, s: seq<T>) returns (perm: seq<nat>)
    requires WeakOrder(less)
    ensures Positions(perm, |s|) && Ranked(less, s, perm)
    ensures forall i :: 0 <= i < |s| ==> Sort(less, s)[i] == s[perm[i]]
  {
    perm := SortPositions(less, s, |s|);
    PositionsRanked(less, s, |s|);
  }

  lemma SortKeepsElements<T>(less: (T, T) -> bool, s: seq<T>)
    ensures forall x :: x in Sort(less, s) <==> x in s
  {
    var perm := SortPositions(less, s, |s|);
    forall x | x in s ensures x in Sort(less, s) {
      var p :| 0 <= p < |s| && s[p] == x;
      assert p in perm;
      var i :| 0 <= i < |s| && perm[i] == p;
      assert Sort(less, s)[i] == x;
    }
  }

  // ---------- Strings ----------

  lemma {:induction false} BeforeTotal(a: string, b: string)
    ensures Before(a, b) || Before(b, a) || a == b
  {
    if a != [] && b != [] && a[0] == b[0] {
      BeforeTotal(a[1..], b[1..]);
      assert a == [a[0]] + a[1..] && b == [b[0]] + b[1..];
    }
  }

  lemma {:induction false} BeforeAsymmetric(a: string, b: string)
    requires Before(a, b)
    ensures !Before(b, a)
  {
    if a != [] && b != [] && a[0] == b[0] { BeforeAsymmetric(a[1..], b[1..]); }
  }

  lemma {:induction false} BeforeTransitive(a: string, b: string, c: string)
    requires Before(a, b) && Before(b, c)
    ensures Before(a, c)
  {
    if a != [] && a[0] == b[0] == c[0] { BeforeTransitive(a[1..], b[1..], c[1..]); }
  }

  lemma BeforeIsOrder()
    ensures WeakOrder(Before)
  {
    forall a, b | Before(a, b) ensures !Before(b, a) { BeforeAsymmetric(a, b); }
    forall a, b, c | Before(a, c) ensures Before(a, b) || Before(b, c) {
      BeforeTotal(a, b);
      if Before(b, a) { BeforeTransitive(b, a, c); }
    }
  }

  ghost predicate Increasing(s: seq<string>) {
    forall i, j :: 0 <= i < j < |s| ==> Before(s[i], s[j])
  }

  ghost predicate NoRepeats<T>(s: seq<T>) {
    forall i, j :: 0 <= i < j < |s| ==> s[i] != s[j]
  }

  lemma SortedStrings(s: seq<string>)
    requires NoRepeats(s)
    ensures Increasing(Sort(Before, s))
  {
    hide Before, Sort, Positions;
    BeforeIsOrder();
    var perm := SortIsStable(Before, s);
    InBounds(perm, |s|);
    forall i, j | 0 <= i < j < |s| ensures Before(Sort(Before, s)[i], Sort(Before, s)[j]) {
      assert Goes(Before, s, perm[i], perm[j]);
      BeforeTotal(s[perm[i]], s[perm[j]]);
    }
  }

  lemma InBounds(perm: seq<nat>, n: nat)
    requires Positions(perm, n)
    ensures |perm| == n && forall i :: 0 <= i < n ==> perm[i] < n
  {
  }

  /** Increasing lists of the same strings are the same list. */
  lemma {:induction false} IncreasingUnique(a: seq<string>, b: seq<string>)
    requires Increasing(a) && Increasing(b)
    requires forall x :: x in a <==> x in b
    ensures a == b
  {
    hide Before;
    if a == [] {
      assert forall i :: 0 <= i < |b| ==> b[i] in b;
    } else {
      assert a[0] in b && b[0] in a;
      SameHead(a, b);
      forall x ensures x in a[1..] <==> x in b[1..] {
        TailOf(a, x);
        TailOf(b, x);
      }
      IncreasingUnique(a[1..], b[1..]);
      assert a == [a[0]] + a[1..] && b == [b[0]] + b[1..];
    }
  }

  lemma SameHead(a: seq<string>, b: seq<string>)
    requires Increasing(a) && Increasing(b) && a != [] && b != [] && a[0] in b && b[0] in a
    ensures a[0] == b[0]
  {
    hide Before;
    var i :| 0 <= i < |b| && b[i] == a[0];
    var j :| 0 <= j < |a| && a[j] == b[0];
    if i > 0 && j > 0 { BeforeAsymmetric(a[0], b[0]); }
  }

  lemma TailOf(a: seq<string>, x: string)
    requires Increasing(a) && a != []
    ensures x in a[1..] <==> x in a && x != a[0]
  {
    hide Before;
    assert a == [a[0]] + a[1..];
    if x in a[1..] {
      var i :| 0 <= i < |a| - 1 && a[1..][i] == x;
      assert Before(a[0], a[i + 1]);
      BeforeAsymmetric(a[0], a[i + 1]);
    }
  }
}
