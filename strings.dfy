/**
 * Go's `strings.ReplaceAll` for a non-empty pattern: every non-overlapping
 * occurrence of the pattern, found left to right, is replaced.
 *
 * `ReplaceAll` scans one position at a time; `ReplaceAllByIndex` follows the
 * library's own algorithm (find the next occurrence with `Index`, copy what
 * precedes it, emit the replacement, continue after the occurrence). The two
 * are proved equal. Both work on positions of the one input string.
 */
module Strings {

  /** `pat` occurs in `s` starting at position `j`. */
  predicate OccursAt(s: string, pat: string, j: nat)
  {
    j + |pat| <= |s| && forall t :: 0 <= t < |pat| ==> s[j + t] == pat[t]
  }

  ghost predicate Contains(s: string, pat: string)
  {
    exists j: nat :: OccursAt(s, pat, j)
  }

  /** Position of the first occurrence of `pat` in `s` at or after `k`, or -1. */
  function IndexFrom(s: string, pat: string, k: nat): (i: int)
    requires pat != [] && k <= |s|
    ensures i == -1 || (k <= i && OccursAt(s, pat, i))
    decreases |s| - k
  {
    if k + |pat| > |s| then -1
    else if OccursAt(s, pat, k) then k
    else IndexFrom(s, pat, k + 1)
  }

  /** Go's `strings.Index`: the position of the first occurrence, or -1. */
  function Index(s: string, pat: string): (i: int)
    requires pat != []
    ensures i == -1 || (0 <= i && OccursAt(s, pat, i))
  {
    IndexFrom(s, pat, 0)
  }

  /** `IndexFrom` skips no occurrence, and answers -1 only when none is left. */
  lemma {:induction false} IndexFromIsFirst(s: string, pat: string, k: nat)
    requires pat != [] && k <= |s|
    ensures IndexFrom(s, pat, k) >= 0 ==>
      forall j: nat :: k <= j < IndexFrom(s, pat, k) ==> !OccursAt(s, pat, j)
    ensures IndexFrom(s, pat, k) < 0 ==> forall j: nat :: k <= j ==> !OccursAt(s, pat, j)
    decreases |s| - k
  {
    if k + |pat| <= |s| && !OccursAt(s, pat, k) {
      IndexFromIsFirst(s, pat, k + 1);
    }
  }

  /** `Index` finds the first occurrence, and answers -1 exactly when there is none. */
  lemma IndexIsFirst(s: string, pat: string)
    requires pat != []
    ensures Index(s, pat) >= 0 ==> forall j: nat :: j < Index(s, pat) ==> !OccursAt(s, pat, j)
    ensures Index(s, pat) < 0 <==> !Contains(s, pat)
  {
    IndexFromIsFirst(s, pat, 0);
    if Index(s, pat) >= 0 {
      assert OccursAt(s, pat, Index(s, pat));
    }
  }

  /** Replacement of every non-overlapping occurrence in `s[k..]`, scanning position by position. */
  function ReplaceFrom(s: string, pat: string, rep: string, k: nat): string
    requires pat != [] && k <= |s|
    decreases |s| - k
  {
    if k + |pat| > |s| then s[k..]
    else if OccursAt(s, pat, k) then rep + ReplaceFrom(s, pat, rep, k + |pat|)
    else [s[k]] + ReplaceFrom(s, pat, rep, k + 1)
  }

  function ReplaceAll(s: string, pat: string, rep: string): string
    requires pat != []
  {
    ReplaceFrom(s, pat, rep, 0)
  }

  /** Reference definition: the loop of Go's `strings.Replace` over `s[k..]`, driven by `IndexFrom`. */
  function ReplaceByIndexFrom(s: string, pat: string, rep: string, k: nat): string
    requires pat != [] && k <= |s|
    decreases |s| - k
  {
    var i := IndexFrom(s, pat, k);
    if i < 0 then s[k..] else s[k..i] + (rep + ReplaceByIndexFrom(s, pat, rep, i + |pat|))
  }

  function ReplaceAllByIndex(s: string, pat: string, rep: string): string
    requires pat != []
  {
    ReplaceByIndexFrom(s, pat, rep, 0)
  }

  /** With no occurrence left at or after `k`, the scan copies the rest unchanged. */
  lemma {:induction false} ReplaceFromAbsent(s: string, pat: string, rep: string, k: nat)
    requires pat != [] && k <= |s| && IndexFrom(s, pat, k) < 0
    ensures ReplaceFrom(s, pat, rep, k) == s[k..]
    decreases |s| - k
  {
    if k + |pat| <= |s| {
      ReplaceFromAbsent(s, pat, rep, k + 1);
      assert s[k..] == [s[k]] + s[k + 1..];
    }
  }

  /** A string in which the pattern does not occur comes back unchanged. */
  lemma ReplaceAllAbsent(s: string, pat: string, rep: string)
    requires pat != []
    requires !Contains(s, pat)
    ensures ReplaceAll(s, pat, rep) == s
  {
    IndexIsFirst(s, pat);
    ReplaceFromAbsent(s, pat, rep, 0);
  }

  /** At an occurrence the scan emits the replacement and resumes after it. */
  lemma ScanAtOccurrence(s: string, pat: string, rep: string, k: nat)
    requires pat != [] && k <= |s| && IndexFrom(s, pat, k) == k
    ensures ReplaceFrom(s, pat, rep, k) == rep + ReplaceFrom(s, pat, rep, k + |pat|)
  {
  }

  /** At an occurrence the `Index`-driven loop emits the replacement and resumes after it. */
  lemma ByIndexAtOccurrence(s: string, pat: string, rep: string, k: nat)
    requires pat != [] && k <= |s| && IndexFrom(s, pat, k) == k
    ensures ReplaceByIndexFrom(s, pat, rep, k) == rep + ReplaceByIndexFrom(s, pat, rep, k + |pat|)
  {
    assert s[k..k] == [];
  }

  /** Before the next occurrence the scan copies one character. */
  lemma ScanBeforeOccurrence(s: string, pat: string, rep: string, k: nat)
    requires pat != [] && k <= |s| && IndexFrom(s, pat, k) > k
    ensures ReplaceFrom(s, pat, rep, k) == [s[k]] + ReplaceFrom(s, pat, rep, k + 1)
  {
  }

  /** Splitting the first character off a slice that is followed by `tail`. */
  lemma SliceCons(s: string, k: nat, i: nat, tail: string)
    requires k < i <= |s|
    ensures s[k..i] + tail == [s[k]] + (s[k + 1..i] + tail)
  {
    assert s[k..i] == [s[k]] + s[k + 1..i];
  }

  /** Searching from the position after a non-occurrence finds the same occurrence. */
  lemma IndexFromSkips(s: string, pat: string, k: nat)
    requires pat != [] && k <= |s| && IndexFrom(s, pat, k) > k
    ensures IndexFrom(s, pat, k + 1) == IndexFrom(s, pat, k)
  {
  }

  /** Before the next occurrence the `Index`-driven loop copies one character. */
  lemma ByIndexBeforeOccurrence(s: string, pat: string, rep: string, k: nat)
    requires pat != [] && k <= |s| && IndexFrom(s, pat, k) > k
    ensures ReplaceByIndexFrom(s, pat, rep, k) == [s[k]] + ReplaceByIndexFrom(s, pat, rep, k + 1)
  {
    var i := IndexFrom(s, pat, k);
    IndexFromSkips(s, pat, k);
    var tail := rep + ReplaceByIndexFrom(s, pat, rep, i + |pat|);
    assert ReplaceByIndexFrom(s, pat, rep, k + 1) == s[k + 1..i] + tail;
    SliceCons(s, k, i, tail);
  }

  /** From every position the scan and the `Index`-driven loop agree. */
  lemma {:induction false} ReplaceFromIsByIndex(s: string, pat: string, rep: string, k: nat)
    requires pat != [] && k <= |s|
    ensures ReplaceFrom(s, pat, rep, k) == ReplaceByIndexFrom(s, pat, rep, k)
    decreases |s| - k
  {
    var i := IndexFrom(s, pat, k);
    if i < 0 {
      ReplaceFromAbsent(s, pat, rep, k);
    } else if i == k {
      ScanAtOccurrence(s, pat, rep, k);
      ByIndexAtOccurrence(s, pat, rep, k);
      ReplaceFromIsByIndex(s, pat, rep, k + |pat|);
    } else {
      ScanBeforeOccurrence(s, pat, rep, k);
      ByIndexBeforeOccurrence(s, pat, rep, k);
      ReplaceFromIsByIndex(s, pat, rep, k + 1);
    }
  }

  /** The scanning definition and the `Index`-driven one agree on every input. */
  lemma ReplaceAllIsByIndex(s: string, pat: string, rep: string)
    requires pat != []
    ensures ReplaceAll(s, pat, rep) == ReplaceAllByIndex(s, pat, rep)
  {
    ReplaceFromIsByIndex(s, pat, rep, 0);
  }

  /** A character that cannot start the pattern is copied by the scan. */
  lemma ScanCopiesOne(s: string, pat: string, rep: string, k: nat)
    requires pat != [] && k < |s| && s[k] != pat[0]
    ensures ReplaceFrom(s, pat, rep, k) == [s[k]] + ReplaceFrom(s, pat, rep, k + 1)
  {
    if k + |pat| > |s| {
      assert s[k..] == [s[k]] + s[k + 1..];
    } else {
      assert !OccursAt(s, pat, k) by {
        assert s[k + 0] != pat[0];
      }
    }
  }

  /** Positions `k` to `m` hold no character that could start the pattern: the scan copies them. */
  lemma {:induction false} ReplaceFromCopies(s: string, pat: string, rep: string, k: nat, m: nat)
    requires pat != [] && k <= m <= |s|
    requires forall j :: k <= j < m ==> s[j] != pat[0]
    ensures ReplaceFrom(s, pat, rep, k) == s[k..m] + ReplaceFrom(s, pat, rep, m)
    decreases m - k
  {
    if k < m {
      ScanCopiesOne(s, pat, rep, k);
      ReplaceFromCopies(s, pat, rep, k + 1, m);
      SliceCons(s, k, m, ReplaceFrom(s, pat, rep, m));
    } else {
      assert s[k..m] == [];
    }
  }
}
