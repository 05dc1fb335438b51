/** The two string operations of ECMAScript that the token extraction relies on,
    `String.prototype.indexOf` and `String.prototype.substring`, following
    section 22.1.3 of ECMA-262 for the argument shapes the scripts use (a search
    string with no start position; two integer positions). Positions count
    characters of a Dafny string (Unicode scalar values), not UTF-16 code units
    as in ECMAScript; the two agree on text within the Basic Multilingual Plane. */
module JsString {

  /** `m` occurs in `s` starting at position `k`. */
  predicate OccursAt(s: string, m: string, k: int)
  {
    0 <= k && k + |m| <= |s| && s[k..k + |m|] == m
  }

  /** `m` occurs somewhere in `s`. */
  predicate Contains(s: string, m: string)
  {
    exists k | 0 <= k <= |s| :: OccursAt(s, m, k)
  }

  /** `k` is the first position at which `m` occurs in `s`. */
  predicate IsFirstOccurrence(s: string, m: string, k: int)
  {
    OccursAt(s, m, k) && forall i :: 0 <= i < k ==> !OccursAt(s, m, i)
  }

  /** The search loop of `indexOf`, from position `from` on. */
  function IndexOfFrom(s: string, m: string, from: nat): (r: int)
    decreases |s| - from
    ensures r == -1 || (from <= r && OccursAt(s, m, r))
    ensures r == -1 ==> forall k :: from <= k ==> !OccursAt(s, m, k)
    ensures r != -1 ==> forall k :: from <= k < r ==> !OccursAt(s, m, k)
  {
    if from + |m| > |s| then -1
    else if s[from..from + |m|] == m then from
    else IndexOfFrom(s, m, from + 1)
  }

  /** `s.indexOf(m)`: the first position of `m` in `s`, or -1 when `m` does not occur. */
  function IndexOf(s: string, m: string): (r: int)
    ensures -1 <= r
    ensures r == -1 <==> !Contains(s, m)
    ensures r != -1 ==> IsFirstOccurrence(s, m, r)
  {
    IndexOfFrom(s, m, 0)
  }

  /** The first occurrence, once found, is what `indexOf` returns. */
  lemma IndexOfIsFirst(s: string, m: string, k: int)
    requires IsFirstOccurrence(s, m, k)
    ensures IndexOf(s, m) == k
  {
    var r := IndexOf(s, m);
    assert r != -1;
    if r < k {
      assert OccursAt(s, m, r);
    } else if r > k {
      assert OccursAt(s, m, k);
    }
  }

  /** When the first character of `m` does not appear among the first `i`
      characters of `s`, `m` cannot start before position `i`. */
  lemma NoOccurrenceBefore(s: string, m: string, i: nat)
    requires 0 < |m| && i <= |s|
    requires m[0] !in s[..i]
    ensures forall k :: 0 <= k < i ==> !OccursAt(s, m, k)
  {
    forall k | 0 <= k < i
      ensures s[k] != m[0]
    {
      assert s[..i][k] == s[k];
    }
  }

  /** In `a + m`, `m` first occurs right after `a` when `a` does not contain
      the first character of `m`. */
  lemma FirstOccurrenceAfter(a: string, m: string)
    requires 0 < |m| && m[0] !in a
    ensures IsFirstOccurrence(a + m, m, |a|)
  {
    var s := a + m;
    assert s[..|a|] == a;
    assert s[|a|..|a| + |m|] == m;
    NoOccurrenceBefore(s, m, |a|);
  }

  /** Text appended after a string does not move the first occurrence of a
      marker that the string already contains. */
  lemma FirstOccurrenceExtends(s: string, t: string, m: string, k: int)
    requires IsFirstOccurrence(s, m, k)
    ensures IsFirstOccurrence(s + t, m, k)
  {
    SliceOfExtension(s, t, k, k + |m|);
    forall i | 0 <= i < k
      ensures !OccursAt(s + t, m, i)
    {
      assert i + |m| <= |s|;
      SliceOfExtension(s, t, i, i + |m|);
      assert !OccursAt(s, m, i);
    }
  }

  /** A slice that lies within `s` is the same slice of `s + t`. */
  lemma SliceOfExtension(s: string, t: string, i: int, j: int)
    requires 0 <= i <= j <= |s|
    ensures (s + t)[i..j] == s[i..j]
  {
    assert (s + t)[..|s|] == s;
    assert (s + t)[i..j] == (s + t)[..|s|][i..j];
  }

  /** Dropping a prefix that lies within `s` from `s + t`. */
  lemma DropOfExtension(s: string, t: string, k: int)
    requires 0 <= k <= |s|
    ensures (s + t)[k..] == s[k..] + t
  {
  }

  /** ToIntegerOrInfinity followed by the clamp to [0, len] that `substring`
      applies to each of its arguments. */
  function Clamp(x: int, len: nat): (r: nat)
    ensures r <= len
  {
    if x < 0 then 0 else if x > len then len else x
  }

  function Min(a: int, b: int): (m: int) { if a <= b then a else b }

  function Max(a: int, b: int): (m: int) { if a <= b then b else a }

  /** `r` is a contiguous piece of `s`. */
  ghost predicate IsSliceOf(r: string, s: string)
  {
    exists i, j :: 0 <= i <= j <= |s| && r == s[i..j]
  }

  /** `s.substring(start, end)`: both positions are clamped to [0, |s|] and
      swapped when the first is the larger. */
  function Substring(s: string, start: int, end: int): (r: string)
    ensures IsSliceOf(r, s)
    ensures 0 <= start <= end <= |s| ==> r == s[start..end]
    ensures 0 <= end <= start <= |s| ==> r == s[end..start]
    ensures |r| == Max(Clamp(start, |s|), Clamp(end, |s|)) - Min(Clamp(start, |s|), Clamp(end, |s|))
  {
    var a, b := Clamp(start, |s|), Clamp(end, |s|);
    if a <= b then s[a..b] else s[b..a]
  }

  /** The order of the two positions does not matter. */
  lemma SubstringSymmetric(s: string, start: int, end: int)
    ensures Substring(s, start, end) == Substring(s, end, start)
  {
  }

  /** Positions below zero act as zero, positions beyond the end as the end. */
  lemma SubstringClamps(s: string, start: int, end: int)
    ensures Substring(s, start, end) == Substring(s, Clamp(start, |s|), Clamp(end, |s|))
  {
  }
}
