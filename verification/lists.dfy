/** Key-based operations on the handler's local lists: the `find`, `indexOf`,
    `splice` and `filter` calls of the data handler, stated once for any
    element type and any key function. */
module Lists {
  import opened Wrappers

  /** Some element of `s` has key `k`. */
  predicate KeyIn<T, K(==)>(s: seq<T>, key: T -> K, k: K) {
    exists i :: 0 <= i < |s| && key(s[i]) == k
  }

  /** `i` is the position of the first element of `s` whose key is `k`. */
  predicate IsFirstMatch<T, K(==)>(s: seq<T>, key: T -> K, k: K, i: int) {
    && 0 <= i < |s|
    && key(s[i]) == k
    && forall j :: 0 <= j < i ==> key(s[j]) != k
  }

  /** No two elements of `s` share a key. */
  predicate Unique<T, K(==)>(s: seq<T>, key: T -> K) {
    forall i, j :: 0 <= i < j < |s| ==> key(s[i]) != key(s[j])
  }

  /** Position of the first element with key `k`, or None when there is none. */
  function FirstIndex<T, K(==)>(s: seq<T>, key: T -> K, k: K): (r: Option<nat>)
    ensures r.Some? ==> IsFirstMatch(s, key, k, r.value)
    ensures r.None? <==> !KeyIn(s, key, k)
    decreases |s|
  {
    if |s| == 0 then None
    else if key(s[0]) == k then Some(0)
    else
      match FirstIndex(s[1..], key, k)
      case None => None
      case Some(i) => Some(i + 1)
  }

  /** `Array.prototype.find` with a key-equality callback. */
  function Find<T, K(==)>(s: seq<T>, key: T -> K, k: K): (r: Option<T>)
    ensures r.None? <==> !KeyIn(s, key, k)
    ensures r.Some? ==> exists i :: IsFirstMatch(s, key, k, i) && s[i] == r.value
  {
    match FirstIndex(s, key, k)
    case None => None
    case Some(i) => Some(s[i])
  }

  /** Deletes the element at position `i` (`splice(i, 1)`), keeping the rest in order. */
  function RemoveAt<T>(s: seq<T>, i: nat): (r: seq<T>)
    requires i < |s|
    ensures |r| == |s| - 1
    ensures forall j :: 0 <= j < i ==> r[j] == s[j]
    ensures forall j :: i <= j < |r| ==> r[j] == s[j + 1]
  {
    s[..i] + s[i + 1..]
  }

  /** `r` can be obtained from `s` by deleting elements, without reordering. */
  predicate IsSubsequence<T(==)>(r: seq<T>, s: seq<T>)
    decreases |s|
  {
    if |r| == 0 then true
    else if |s| == 0 then false
    else if r[0] == s[0] then IsSubsequence(r[1..], s[1..])
    else IsSubsequence(r, s[1..])
  }

  /** `Array.prototype.filter`: the elements of `s` that pass `keep`. */
  function Filter<T(==)>(s: seq<T>, keep: T -> bool): (r: seq<T>)
    ensures forall i :: 0 <= i < |r| ==> r[i] in s && keep(r[i])
    ensures forall i :: 0 <= i < |s| && keep(s[i]) ==> s[i] in r
    ensures IsSubsequence(r, s)
    decreases |s|
  {
    if |s| == 0 then []
    else
      var rest := Filter(s[1..], keep);
      if keep(s[0]) then [s[0]] + rest
      else
        SkipHead(rest, s, keep);
        rest
  }

  /** A subsequence of `s[1..]` with no element equal to `s[0]` is a subsequence of `s`. */
  lemma SkipHead<T>(r: seq<T>, s: seq<T>, keep: T -> bool)
    requires |s| > 0 && !keep(s[0])
    requires forall i :: 0 <= i < |r| ==> keep(r[i])
    requires IsSubsequence(r, s[1..])
    ensures IsSubsequence(r, s)
  {
  }

  /** Filtering with a test every element passes changes nothing. */
  lemma {:induction false} FilterKeepsAll<T>(s: seq<T>, keep: T -> bool)
    requires forall i :: 0 <= i < |s| ==> keep(s[i])
    ensures Filter(s, keep) == s
    decreases |s|
  {
    if |s| > 0 {
      FilterKeepsAll(s[1..], keep);
    }
  }

  /** Deleting one element keeps keys unique. */
  lemma UniqueRemoveAt<T, K>(s: seq<T>, key: T -> K, i: nat)
    requires i < |s|
    ensures Unique(s, key) ==> Unique(RemoveAt(s, i), key)
  {
  }

  /** Filtering keeps keys unique. */
  lemma {:induction false} UniqueFilter<T, K>(s: seq<T>, key: T -> K, keep: T -> bool)
    ensures Unique(s, key) ==> Unique(Filter(s, keep), key)
    decreases |s|
  {
    if |s| > 0 && Unique(s, key) {
      var t := s[1..];
      assert Unique(t, key) by {
        forall i, j | 0 <= i < j < |t|
          ensures key(t[i]) != key(t[j])
        {
          assert t[i] == s[i + 1] && t[j] == s[j + 1];
        }
      }
      UniqueFilter(t, key, keep);
      var rest := Filter(t, keep);
      if keep(s[0]) {
        var r := [s[0]] + rest;
        forall i, j | 0 <= i < j < |r|
          ensures key(r[i]) != key(r[j])
        {
          if i == 0 {
            assert r[j] == rest[j - 1];
            assert r[j] in t;
            var m :| 0 <= m < |t| && t[m] == r[j];
            assert s[m + 1] == r[j];
          } else {
            assert r[i] == rest[i - 1] && r[j] == rest[j - 1];
          }
        }
      }
    }
  }

  /** After appending an element with an absent key, the lookup by that key finds it. */
  lemma FindAppended<T, K>(s: seq<T>, key: T -> K, x: T)
    requires !KeyIn(s, key, key(x))
    ensures Find(s + [x], key, key(x)) == Some(x)
  {
    var r := Find(s + [x], key, key(x));
    assert (s + [x])[|s|] == x;
    assert KeyIn(s + [x], key, key(x));
    forall j | 0 <= j < |s|
      ensures key((s + [x])[j]) != key(x)
    {
      assert (s + [x])[j] == s[j];
    }
  }

  /** An element appended with an absent key is the first match for its key, and deleting it restores the list. */
  lemma RemoveAppended<T, K>(s: seq<T>, key: T -> K, x: T)
    requires !KeyIn(s, key, key(x))
    ensures IsFirstMatch(s + [x], key, key(x), |s|)
    ensures RemoveAt(s + [x], |s|) == s
  {
  }

  /** Replacing the first match for `k` by another element with key `k` makes the lookup find the new element. */
  lemma FindReplaced<T, K>(s: seq<T>, key: T -> K, k: K, i: nat, x: T)
    requires IsFirstMatch(s, key, k, i) && key(x) == k
    ensures Find(s[i := x], key, k) == Some(x)
  {
    assert IsFirstMatch(s[i := x], key, k, i);
  }

  /** Appending an element with a different key does not change the lookup. */
  lemma FindAppendedOther<T, K>(s: seq<T>, key: T -> K, k: K, x: T)
    requires key(x) != k
    ensures Find(s + [x], key, k) == Find(s, key, k)
  {
    match FirstIndex(s, key, k)
    case None =>
      assert !KeyIn(s + [x], key, k) by {
        forall i | 0 <= i < |s| + 1
          ensures key((s + [x])[i]) != k
        {
          if i < |s| {
            assert (s + [x])[i] == s[i];
          }
        }
      }
    case Some(i) =>
      assert IsFirstMatch(s + [x], key, k, i);
  }
}
