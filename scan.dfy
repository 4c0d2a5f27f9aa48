/**
 * Regular-expression machinery for the patterns of parser.py, written out by hand.
 *
 * Each pattern P gets a function "P tried at position s" that returns what Python's backtracking
 * engine finds there (or None); `Leftmost` turns such a function into `re.search` (the smallest
 * position where the pattern matches). Greedy quantifiers are resolved by hand: where a greedy run
 * is followed by a token that cannot start with a character of the run, only the longest run can
 * succeed, so giving characters back is never tried.
 */
module Scan {
  import opened Wrappers
  import opened Text

  /** Length of the longest run of characters satisfying P starting at i (a greedy `[...]*`). */
  function Run(s: string, i: nat, P: char -> bool): (n: nat)
    requires i <= |s|
    decreases |s| - i
    ensures i + n <= |s|
    ensures forall k :: i <= k < i + n ==> P(s[k])
    ensures i + n == |s| || !P(s[i + n])
  {
    if i < |s| && P(s[i]) then 1 + Run(s, i + 1, P) else 0
  }

  /** A run is pinned down by its characters and the character that stops it. */
  lemma RunIs(s: string, i: nat, n: nat, P: char -> bool)
    requires i + n <= |s| && (forall k :: i <= k < i + n ==> P(s[k]))
    requires i + n == |s| || !P(s[i + n])
    ensures Run(s, i, P) == n
  {
  }

  /** A run is a span of P that cannot be extended. */
  lemma RunSpan(s: string, i: nat, P: char -> bool)
    requires i <= |s|
    ensures Span(s, i, i + Run(s, i, P), P)
  {
  }

  /** A run goes at least to the end of a span of P that starts where it starts. */
  lemma RunCovers(s: string, i: nat, j: nat, P: char -> bool)
    requires Span(s, i, j, P)
    ensures i + Run(s, i, P) >= j
  {
  }

  /** A run stops at or before any later character that fails P. */
  lemma RunStopsBy(s: string, i: nat, j: nat, P: char -> bool)
    requires i <= j < |s| && !P(s[j])
    ensures i + Run(s, i, P) <= j
  {
  }

  /** Every character of s[i..j] satisfies P. */
  predicate Span(s: string, i: nat, j: nat, P: char -> bool) {
    i <= j <= |s| && forall k :: i <= k < j ==> P(s[k])
  }

  /** re.search: the smallest position in [from, last] where f reports a match, with that match. */
  function Leftmost<T>(f: nat -> Option<T>, from: nat, last: nat): (r: Option<(nat, T)>)
    decreases last + 1 - from
    ensures r.Some? ==> from <= r.value.0 <= last && f(r.value.0) == Some(r.value.1)
    ensures r.Some? ==> forall j :: from <= j < r.value.0 ==> f(j).None?
    ensures r.None? ==> forall j :: from <= j <= last ==> f(j).None?
  {
    if from > last then None
    else
      match f(from)
      case Some(v) => Some((from, v))
      case None => Leftmost(f, from + 1, last)
  }

  /** The search returns the first position that reports a match. */
  lemma LeftmostIs<T>(f: nat -> Option<T>, from: nat, last: nat, i: nat, v: T)
    requires from <= i <= last && f(i) == Some(v)
    requires forall j :: from <= j < i ==> f(j).None?
    ensures Leftmost(f, from, last) == Some((i, v))
  {
    var r := Leftmost(f, from, last);
    assert r.Some? && r.value.0 == i;
  }

  /**
   * A greedy `\s*` has matched t[a..p]; a lazy `.{minLen,}?` (DOTALL) follows and then `anchor`.
   * The lazy part stops at the first anchor it can reach; when none is left, the greedy part gives
   * back one character at a time. Result: the bounds of the lazy part.
   */
  function LazyUpTo(t: string, a: nat, p: nat, anchor: string, minLen: nat): (r: Option<(nat, nat)>)
    requires a <= p
    decreases p - a
    ensures r.Some? ==> a <= r.value.0 <= p && r.value.0 + minLen <= r.value.1
    ensures r.Some? ==> OccursAt(t, anchor, r.value.1)
    ensures r.Some? ==> forall q :: r.value.0 + minLen <= q < r.value.1 ==> !OccursAt(t, anchor, q)
    ensures r.Some? && r.value.0 < p ==> forall q :: r.value.0 + minLen < q ==> !OccursAt(t, anchor, q)
    ensures r.None? ==> forall q :: a + minLen <= q ==> !OccursAt(t, anchor, q)
  {
    match FindFrom(t, anchor, p + minLen)
    case Some(q) => Some((p, q))
    case None => if p == a then None else LazyUpTo(t, a, p - 1, anchor, minLen)
  }

  /**
   * A greedy `\s*`, then a lazy group of at least minLen characters, then the anchor, tried at a:
   * the bounds of the group. The whitespace run gives characters back only when no anchor is left
   * after the group's shortest end.
   */
  function SpacedLazy(t: string, a: nat, anchor: string, minLen: nat): (r: Option<(nat, nat)>)
    requires a <= |t|
    ensures r.Some? ==> OccursAt(t, anchor, r.value.1)
    ensures r.Some? ==> a <= r.value.0 && r.value.0 + minLen <= r.value.1 && AllSpace(t[a..r.value.0])
    ensures r.Some? ==> forall q :: r.value.0 + minLen <= q < r.value.1 ==> !OccursAt(t, anchor, q)
    ensures r.Some? && r.value.0 < |t| && IsSpace(t[r.value.0]) ==>
      forall q :: r.value.0 + minLen < q ==> !OccursAt(t, anchor, q)
    ensures r.None? ==> forall q :: a + minLen <= q ==> !OccursAt(t, anchor, q)
  {
    var p := a + Run(t, a, IsSpace);
    var r := LazyUpTo(t, a, p, anchor, minLen);
    assert r.Some? ==> AllSpace(t[a..r.value.0]) by {
      if r.Some? {
        forall i | 0 <= i < r.value.0 - a ensures IsSpace(t[a..r.value.0][i]) {
          assert t[a..r.value.0][i] == t[a + i];
        }
      }
    }
    r
  }
}
