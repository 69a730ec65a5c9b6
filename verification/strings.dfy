/** Plain substring and prefix operations on `string` (= `seq<char>`), the
    building blocks every pattern of the extractor is written in. */
module Strings {
  import opened Wrappers

  predicate StartsWith(s: string, p: string) {
    |p| <= |s| && s[..|p|] == p
  }

  predicate EndsWith(s: string, p: string) {
    |p| <= |s| && s[|s| - |p|..] == p
  }

  /** `p` occurs in `s` starting at index `i`. */
  predicate OccursAt(s: string, p: string, i: nat) {
    i + |p| <= |s| && s[i..i + |p|] == p
  }

  lemma OccursShift(s: string, p: string)
    requires |s| > 0
    ensures forall j :: 1 <= j ==> (OccursAt(s, p, j) <==> OccursAt(s[1..], p, j - 1))
  {
    forall j | 1 <= j
      ensures OccursAt(s, p, j) <==> OccursAt(s[1..], p, j - 1)
    {
      if j + |p| <= |s| {
        var a, b := s[j..j + |p|], s[1..][j - 1..j - 1 + |p|];
        forall i | 0 <= i < |p|
          ensures a[i] == b[i]
        {
          assert s[1..][j - 1 + i] == s[j + i];
        }
        assert a == b;
      }
    }
  }

  /** A text whose first two characters at `i` differ from those of `p`
      has no occurrence of `p` there. */
  lemma NotOccursAtPair(s: string, p: string, i: nat)
    requires |p| >= 2 && i + 1 < |s|
    requires s[i] != p[0] || s[i + 1] != p[1]
    ensures !OccursAt(s, p, i)
  {
    if i + |p| <= |s| {
      var w := s[i..i + |p|];
      assert w[0] == s[i] && w[1] == s[i + 1];
    }
  }

  /** Index of the first occurrence of `p` in `s` (Python's `str.find`). */
  function IndexOf(s: string, p: string): (r: Option<nat>)
    ensures r.Some? ==> OccursAt(s, p, r.value)
    ensures r.Some? ==> forall j :: 0 <= j < r.value ==> !OccursAt(s, p, j)
    ensures r.None? ==> forall j: nat :: !OccursAt(s, p, j)
    decreases |s|
  {
    if OccursAt(s, p, 0) then Some(0)
    else if |s| == 0 then None
    else
      OccursShift(s, p);
      match IndexOf(s[1..], p)
      case None => None
      case Some(i) => Some(i + 1)
  }

  /** Python's `p in s` for a string `p`. */
  predicate Contains(s: string, p: string) {
    IndexOf(s, p).Some?
  }

  lemma ContainsAt(s: string, p: string, i: nat)
    requires OccursAt(s, p, i)
    ensures Contains(s, p)
  {
  }

  lemma NotContainsAt(s: string, p: string, i: nat)
    requires !Contains(s, p)
    ensures !OccursAt(s, p, i)
  {
  }

  /** `IndexOf` is pinned down by one occurrence with none before it. */
  lemma IndexOfIs(s: string, p: string, k: nat)
    requires OccursAt(s, p, k)
    requires forall j :: 0 <= j < k ==> !OccursAt(s, p, j)
    ensures IndexOf(s, p) == Some(k)
  {
  }

  /** Index of the first `c` in `s`. */
  function CharIndex(s: string, c: char): (r: Option<nat>)
    ensures r.Some? ==> r.value < |s| && s[r.value] == c && c !in s[..r.value]
    ensures r.None? ==> c !in s
  {
    if |s| == 0 then None
    else if s[0] == c then Some(0)
    else
      match CharIndex(s[1..], c)
      case None => None
      case Some(i) =>
        assert s[..i + 1] == [s[0]] + s[1..][..i];
        Some(i + 1)
  }

  lemma CharIndexIs(s: string, c: char, k: nat)
    requires k < |s| && s[k] == c && c !in s[..k]
    ensures CharIndex(s, c) == Some(k)
  {
  }

  /** Where the longest run of characters satisfying `p` that starts at
      index `i` of `s` ends (the extent of a greedy `[class]*`). */
  function RunEnd(s: string, i: nat, p: char -> bool): (e: nat)
    requires i <= |s|
    ensures i <= e <= |s|
    ensures forall j :: i <= j < e ==> p(s[j])
    ensures e < |s| ==> !p(s[e])
    decreases |s| - i
  {
    if i == |s| || !p(s[i]) then i else RunEnd(s, i + 1, p)
  }

  /** The run ends at the first character from `i` on that fails `p`. */
  lemma {:induction false} RunEndExact(s: string, i: nat, p: char -> bool, e: nat)
    requires i <= e <= |s|
    requires forall j :: i <= j < e ==> p(s[j])
    requires e < |s| ==> !p(s[e])
    ensures RunEnd(s, i, p) == e
    decreases e - i
  {
    if i < e {
      RunEndExact(s, i + 1, p, e);
    }
  }

  /** A run that covers `[i, k)` ends at `k` or later. */
  lemma {:induction false} RunEndAtLeast(s: string, i: nat, p: char -> bool, k: nat)
    requires i <= k <= |s|
    requires forall j :: i <= j < k ==> p(s[j])
    ensures RunEnd(s, i, p) >= k
    decreases k - i
  {
    if i < k {
      RunEndAtLeast(s, i + 1, p, k);
    }
  }

  /** The text before the first occurrence of a non-empty `p` does not
      contain `p`. */
  lemma BeforeFirstOccurrence(s: string, p: string, k: nat)
    requires |p| > 0
    requires IndexOf(s, p) == Some(k)
    ensures !Contains(s[..k], p)
  {
    var t := s[..k];
    forall j: nat
      ensures !OccursAt(t, p, j)
    {
      if j + |p| <= |t| {
        assert j < k;
        assert !OccursAt(s, p, j);
        assert t[j..j + |p|] == s[j..j + |p|];
      }
    }
  }

  /** When `p` begins with a character it never repeats, the first `p` in
      `b + p + t` is the one placed after `b`, provided `b` holds none. */
  lemma FirstOccurrenceAfter(b: string, p: string, t: string)
    requires !Contains(b, p)
    requires |p| >= 1 && forall i :: 0 < i < |p| ==> p[i] != p[0]
    ensures IndexOf(b + p + t, p) == Some(|b|)
  {
    var s := b + p + t;
    forall j | 0 <= j < |b|
      ensures !OccursAt(s, p, j)
    {
      if j + |p| <= |b| {
        assert s[j..j + |p|] == b[j..j + |p|];
        NotContainsAt(b, p, j);
      } else if j + |p| <= |s| {
        var i := |b| - j;
        assert s[j..j + |p|][i] == p[0];
      }
    }
    assert s[|b|..|b| + |p|] == p;
    IndexOfIs(s, p, |b|);
  }

  /** Concatenation of a sequence of strings. */
  function Concat(ss: seq<string>): string {
    if |ss| == 0 then [] else ss[0] + Concat(ss[1..])
  }

  /** An occurrence inside an occurrence. */
  lemma OccursWithin(s: string, q: string, p: string, i: nat, k: nat)
    requires OccursAt(s, q, i) && OccursAt(q, p, k)
    ensures OccursAt(s, p, i + k)
  {
    var a, b := s[i + k..i + k + |p|], q[k..k + |p|];
    forall m | 0 <= m < |p|
      ensures a[m] == b[m]
    {
      assert q[k + m] == s[i..i + |q|][k + m] == s[i + k + m];
    }
    assert a == b;
  }
}
