/** JavaScript `String.prototype.indexOf` and `String.prototype.split` for a
    non-empty separator, with the join that undoes the split. */
module Strings {
  import opened Wrappers

  /** `pat` occurs in `s` starting at position `i`. */
  predicate OccursAt(s: string, pat: string, i: int) {
    0 <= i && i + |pat| <= |s| && s[i..i + |pat|] == pat
  }

  /** One mismatching character rules out an occurrence. */
  lemma Mismatch(s: string, pat: string, i: nat, k: nat)
    requires k < |pat| && i + k < |s| && s[i + k] != pat[k]
    ensures !OccursAt(s, pat, i)
  {
  }

  /** An occurrence that fits inside the first part of a concatenation is an occurrence in that part. */
  lemma OccursInPrefix(a: string, b: string, pat: string, j: nat)
    requires j + |pat| <= |a|
    ensures OccursAt(a + b, pat, j) <==> OccursAt(a, pat, j)
  {
    assert (a + b)[j..j + |pat|] == a[j..j + |pat|];
  }

  /** Positions behind the first part of a concatenation are positions in the second part. */
  lemma OccursInSuffix(a: string, b: string, pat: string, j: nat)
    ensures OccursAt(a + b, pat, |a| + j) <==> OccursAt(b, pat, j)
  {
    if j + |pat| <= |b| {
      assert (a + b)[|a| + j..|a| + j + |pat|] == b[j..j + |pat|];
    }
  }

  /** First occurrence of `pat` in `s` at position `from` or later (`s.indexOf(pat, from)`). */
  function IndexFrom(s: string, pat: string, from: nat): (r: Option<nat>)
    requires |pat| > 0
    ensures r.Some? ==> from <= r.value && OccursAt(s, pat, r.value)
    ensures r.Some? ==> forall j :: from <= j < r.value ==> !OccursAt(s, pat, j)
    ensures r.None? ==> forall j :: from <= j ==> !OccursAt(s, pat, j)
    decreases |s| - from
  {
    if from + |pat| > |s| then None
    else if OccursAt(s, pat, from) then Some(from)
    else IndexFrom(s, pat, from + 1)
  }

  /** `s.indexOf(pat)`, with None for -1. */
  function IndexOf(s: string, pat: string): (r: Option<nat>)
    requires |pat| > 0
    ensures r.Some? ==> OccursAt(s, pat, r.value)
    ensures r.Some? ==> forall j :: 0 <= j < r.value ==> !OccursAt(s, pat, j)
    ensures r.None? ==> forall j :: !OccursAt(s, pat, j)
  {
    IndexFrom(s, pat, 0)
  }

  /** `s.split(sep)` for a non-empty `sep`: the pieces between successive
      non-overlapping occurrences, scanned from the left. */
  function Split(s: string, sep: string): (r: seq<string>)
    requires |sep| > 0
    ensures |r| >= 1
    ensures |r| == 1 <==> IndexOf(s, sep).None?
  {
    SplitFrom(s, sep, 0)
  }

  /** The pieces of `s[from..]`; the search resumes after each separator. */
  function SplitFrom(s: string, sep: string, from: nat): (r: seq<string>)
    requires |sep| > 0 && from <= |s|
    ensures |r| >= 1
    ensures |r| == 1 <==> IndexFrom(s, sep, from).None?
    decreases |s| - from
  {
    match IndexFrom(s, sep, from)
    case None => [s[from..]]
    case Some(i) => [s[from..i]] + SplitFrom(s, sep, i + |sep|)
  }

  /** No piece of a split contains the separator. */
  lemma SplitPiecesFree(s: string, sep: string)
    requires |sep| > 0
    ensures forall k :: 0 <= k < |Split(s, sep)| ==> IndexOf(Split(s, sep)[k], sep).None?
  {
    SplitFromPiecesFree(s, sep, 0);
  }

  lemma {:induction false} SplitFromPiecesFree(s: string, sep: string, from: nat)
    requires |sep| > 0 && from <= |s|
    ensures forall k :: 0 <= k < |SplitFrom(s, sep, from)| ==> IndexOf(SplitFrom(s, sep, from)[k], sep).None?
    decreases |s| - from
  {
    var parts := SplitFrom(s, sep, from);
    match IndexFrom(s, sep, from)
    case None =>
      NoOccurrenceBetween(s, sep, from, |s|);
      assert parts == [s[from..]];
      assert s[from..] == s[from..|s|];
    case Some(i) =>
      NoOccurrenceBetween(s, sep, from, i);
      SplitFromPiecesFree(s, sep, i + |sep|);
      var rest := SplitFrom(s, sep, i + |sep|);
      assert parts == [s[from..i]] + rest;
      forall k | 0 <= k < |parts|
        ensures IndexOf(parts[k], sep).None?
      {
        if k > 0 {
          assert parts[k] == rest[k - 1];
        }
      }
  }

  /** A stretch `s[from..to]` that the search from `from` skips over contains no `sep`. */
  lemma NoOccurrenceBetween(s: string, sep: string, from: nat, to: nat)
    requires |sep| > 0 && from <= to <= |s|
    requires forall j :: from <= j < to ==> !OccursAt(s, sep, j)
    ensures IndexOf(s[from..to], sep).None?
  {
    var t := s[from..to];
    forall j
      ensures !OccursAt(t, sep, j)
    {
      if OccursAt(t, sep, j) {
        SliceOfSlice(s, from, to, j, j + |sep|);
        assert OccursAt(s, sep, from + j);
      }
    }
  }

  lemma SliceOfSlice(s: string, a: nat, b: nat, x: nat, y: nat)
    requires a <= b <= |s| && x <= y <= b - a
    ensures s[a..b][x..y] == s[a + x..a + y]
  {
    assert forall k :: 0 <= k < y - x ==> s[a..b][x..y][k] == s[a + x..a + y][k];
  }

  /** `parts.join(sep)` */
  function Join(parts: seq<string>, sep: string): string
    decreases |parts|
  {
    if |parts| == 0 then ""
    else if |parts| == 1 then parts[0]
    else parts[0] + sep + Join(parts[1..], sep)
  }

  /** Splitting and re-joining with the same separator gives back the string. */
  lemma JoinSplit(s: string, sep: string)
    requires |sep| > 0
    ensures Join(Split(s, sep), sep) == s
  {
    JoinSplitFrom(s, sep, 0);
  }

  lemma {:induction false} JoinSplitFrom(s: string, sep: string, from: nat)
    requires |sep| > 0 && from <= |s|
    ensures Join(SplitFrom(s, sep, from), sep) == s[from..]
    decreases |s| - from
  {
    match IndexFrom(s, sep, from)
    case None =>
    case Some(i) =>
      var next := i + |sep|;
      JoinSplitFrom(s, sep, next);
      var parts := SplitFrom(s, sep, from);
      assert parts[0] == s[from..i];
      assert parts[1..] == SplitFrom(s, sep, next);
      assert s[i..next] == sep;
      assert s[from..] == s[from..i] + s[i..next] + s[next..];
  }

  /** After the first piece, the split resumes behind the separator. */
  lemma SplitFromTail(s: string, sep: string, from: nat, i: nat)
    requires |sep| > 0 && from <= |s| && IndexFrom(s, sep, from) == Some(i)
    ensures |SplitFrom(s, sep, from)| >= 2
    ensures SplitFrom(s, sep, from)[1..] == SplitFrom(s, sep, i + |sep|)
  {
  }

  /** The text of `s` from position `from` up to the next `sep`, or to the end. */
  function PieceAt(s: string, sep: string, from: nat): string
    requires |sep| > 0 && from <= |s|
  {
    s[from..IndexFrom(s, sep, from).GetOr(|s|)]
  }

  /** The first piece of `s[from..]` ends at the next `sep`, or at the end of `s`. */
  lemma SplitFromHead(s: string, sep: string, from: nat)
    requires |sep| > 0 && from <= |s|
    ensures SplitFrom(s, sep, from)[0] == PieceAt(s, sep, from)
  {
  }

  lemma SplitFromSecond(s: string, sep: string, i: nat)
    requires |sep| > 0 && IndexFrom(s, sep, 0) == Some(i)
    ensures SplitFrom(s, sep, 0)[1] == SplitFrom(s, sep, i + |sep|)[0]
  {
    SplitFromTail(s, sep, 0, i);
    var parts := SplitFrom(s, sep, 0);
    assert parts[1] == parts[1..][0];
  }

  /** The first piece is the text before the first `sep`, or all of `s`. */
  lemma SplitHead(s: string, sep: string)
    requires |sep| > 0
    ensures Split(s, sep)[0] == PieceAt(s, sep, 0)
  {
    SplitFromHead(s, sep, 0);
  }

  /** When the first `sep` is at `i`, the second piece runs from behind it to the next `sep` or the end. */
  lemma SplitSecond(s: string, sep: string, i: nat)
    requires |sep| > 0 && IndexOf(s, sep) == Some(i)
    ensures Split(s, sep)[1] == PieceAt(s, sep, i + |sep|)
  {
    assert IndexFrom(s, sep, 0) == Some(i);
    SplitFromSecond(s, sep, i);
    SplitFromHead(s, sep, i + |sep|);
  }
}
