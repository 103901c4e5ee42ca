/** String operations that the pipeline uses on names, paths and compiler
    output: Python's `k in s`, `startswith`/`endswith` and `strip("\n")`. */
module Strings {

  /** A slice of a slice is a slice of the original. */
  lemma SliceOfSlice<T>(s: seq<T>, a: int, b: int, i: int, j: int)
    requires 0 <= a <= b <= |s| && 0 <= i <= j <= b - a
    ensures s[a..b][i..j] == s[a + i..a + j]
  {
    forall t | 0 <= t < j - i ensures s[a..b][i..j][t] == s[a + i..a + j][t] {
      assert s[a..b][i..j][t] == s[a..b][i + t] == s[a + i + t];
    }
  }

  /** `k` occurs in `s` starting at index `i`. */
  ghost predicate OccursAt(k: string, s: string, i: int) {
    0 <= i && i + |k| <= |s| && s[i..i + |k|] == k
  }

  /** The meaning of Python's `k in s` for strings. */
  ghost predicate IsSubstring(k: string, s: string) {
    exists i :: OccursAt(k, s, i)
  }

  /** Python's `k in s`, computed by scanning `s` from the left. */
  function Contains(s: string, k: string): bool
    decreases |s|
  {
    if |k| > |s| then false
    else if s[..|k|] == k then true
    else Contains(s[1..], k)
  }

  /** An occurrence in the tail is an occurrence one position later in
      the whole string, and conversely. */
  lemma OccursInTail(k: string, s: string, i: nat)
    requires |s| > 0
    ensures OccursAt(k, s[1..], i) <==> OccursAt(k, s, i + 1)
  {
    if i + |k| <= |s| - 1 {
      assert s[1..] == s[1..|s|];
      SliceOfSlice(s, 1, |s|, i, i + |k|);
      assert s[1..][i..i + |k|] == s[i + 1..i + 1 + |k|];
    }
  }

  lemma {:induction false} ContainsIffSubstring(s: string, k: string)
    ensures Contains(s, k) <==> IsSubstring(k, s)
    decreases |s|
  {
    if |k| > |s| {
      assert forall i :: !OccursAt(k, s, i);
    } else if s[..|k|] == k {
      assert OccursAt(k, s, 0);
    } else {
      ContainsIffSubstring(s[1..], k);
      assert Contains(s, k) == Contains(s[1..], k);
      if IsSubstring(k, s[1..]) {
        var i :| OccursAt(k, s[1..], i);
        OccursInTail(k, s, i);
      }
      if IsSubstring(k, s) {
        var i :| OccursAt(k, s, i);
        assert i != 0;
        OccursInTail(k, s, i - 1);
      }
    }
  }

  /** Being a substring is transitive. */
  lemma SubstringTransitive(a: string, b: string, c: string)
    requires IsSubstring(a, b) && IsSubstring(b, c)
    ensures IsSubstring(a, c)
  {
    var i :| OccursAt(a, b, i);
    var j :| OccursAt(b, c, j);
    SliceOfSlice(c, j, j + |b|, i, i + |a|);
    assert OccursAt(a, c, j + i);
  }

  predicate StartsWith(s: string, p: string) {
    |p| <= |s| && s[..|p|] == p
  }

  predicate EndsWith(s: string, p: string) {
    |p| <= |s| && s[|s| - |p|..] == p
  }

  /** The last index of `c` in `s`, or -1. */
  function LastIndexOf(s: string, c: char): (r: int)
    ensures -1 <= r < |s|
    ensures r >= 0 ==> s[r] == c
    ensures forall j :: r < j < |s| ==> s[j] != c
    decreases |s|
  {
    if s == [] then -1
    else if s[|s| - 1] == c then |s| - 1
    else LastIndexOf(s[..|s| - 1], c)
  }

  /** Removes the leading newlines. */
  function DropLeadingNewlines(s: string): (r: string)
    ensures |r| <= |s|
    decreases |s|
  {
    if |s| > 0 && s[0] == '\n' then DropLeadingNewlines(s[1..]) else s
  }

  /** Removes the trailing newlines. */
  function DropTrailingNewlines(s: string): (r: string)
    ensures |r| <= |s|
    decreases |s|
  {
    if |s| > 0 && s[|s| - 1] == '\n' then DropTrailingNewlines(s[..|s| - 1]) else s
  }

  /** Python's `s.strip("\n")`. */
  function StripNewlines(s: string): (r: string)
    ensures |r| <= |s|
  {
    DropTrailingNewlines(DropLeadingNewlines(s))
  }

  /** What the leading newlines leave: a suffix after newlines only,
      which does not start with a newline. */
  lemma {:induction false} LeadingCut(s: string) returns (a: nat)
    ensures a <= |s| && DropLeadingNewlines(s) == s[a..]
    ensures forall i :: 0 <= i < a ==> s[i] == '\n'
    ensures a == |s| || s[a] != '\n'
    decreases |s|
  {
    if |s| > 0 && s[0] == '\n' {
      var a' := LeadingCut(s[1..]);
      a := a' + 1;
      assert s[1..][a'..] == s[a..];
      forall i | 0 <= i < a ensures s[i] == '\n' {
        if i > 0 { assert s[i] == s[1..][i - 1]; }
      }
      if a < |s| { assert s[a] == s[1..][a']; }
    } else {
      a := 0;
      assert s == s[0..];
    }
  }

  /** What the trailing newlines leave: a prefix before newlines only,
      which does not end with a newline. */
  lemma {:induction false} TrailingCut(s: string) returns (b: nat)
    ensures b <= |s| && DropTrailingNewlines(s) == s[..b]
    ensures forall i :: b <= i < |s| ==> s[i] == '\n'
    ensures b == 0 || s[b - 1] != '\n'
    decreases |s|
  {
    if |s| > 0 && s[|s| - 1] == '\n' {
      var t := s[..|s| - 1];
      b := TrailingCut(t);
      assert t[..b] == s[..b];
      forall i | b <= i < |s| ensures s[i] == '\n' {
        if i < |t| { assert s[i] == t[i]; }
      }
      if b > 0 { assert s[b - 1] == t[b - 1]; }
    } else {
      b := |s|;
      assert s == s[..|s|];
    }
  }

  /** The two ends of what `strip("\n")` keeps. */
  lemma StripCut(s: string) returns (a: nat, b: nat)
    ensures a <= b <= |s| && StripNewlines(s) == s[a..b]
    ensures forall i :: 0 <= i < a ==> s[i] == '\n'
    ensures forall i :: b <= i < |s| ==> s[i] == '\n'
  {
    var t := DropLeadingNewlines(s);
    a := LeadingCut(s);
    var m := TrailingCut(t);
    b := a + m;
    assert t[..m] == s[a..b];
    forall i | b <= i < |s| ensures s[i] == '\n' {
      assert s[i] == t[i - a];
    }
  }

  /** `strip("\n")` keeps a contiguous slice of its input and drops only
      newlines on either side of it. */
  lemma StripNewlinesSlice(s: string)
    ensures exists a, b :: 0 <= a <= b <= |s| && StripNewlines(s) == s[a..b]
                           && (forall i :: 0 <= i < a ==> s[i] == '\n')
                           && (forall i :: b <= i < |s| ==> s[i] == '\n')
  {
    var a, b := StripCut(s);
  }

  /** An occurrence of a newline-free string inside a slice `s[a..b]` whose
      outside is all newlines lies in the slice, and conversely. */
  lemma SubstringOfPaddedSlice(k: string, s: string, a: int, b: int)
    requires |k| > 0 && forall i :: 0 <= i < |k| ==> k[i] != '\n'
    requires 0 <= a <= b <= |s|
    requires forall i :: 0 <= i < a ==> s[i] == '\n'
    requires forall i :: b <= i < |s| ==> s[i] == '\n'
    ensures IsSubstring(k, s[a..b]) <==> IsSubstring(k, s)
  {
    if IsSubstring(k, s[a..b]) {
      var i :| OccursAt(k, s[a..b], i);
      OccurrenceInSlice(k, s, a, b, i);
    }
    if IsSubstring(k, s) {
      var j :| OccursAt(k, s, j);
      OccurrenceInsidePadding(k, s, a, b, j);
      OccurrenceInSlice(k, s, a, b, j - a);
    }
  }

  /** An occurrence at `i` in the slice `s[a..b]` is one at `a + i` in `s`,
      and conversely when it fits inside the slice. */
  lemma OccurrenceInSlice(k: string, s: string, a: int, b: int, i: int)
    requires 0 <= a <= b <= |s| && 0 <= i && i + |k| <= b - a
    ensures OccursAt(k, s[a..b], i) <==> OccursAt(k, s, a + i)
  {
    SliceOfSlice(s, a, b, i, i + |k|);
  }

  /** An occurrence of a newline-free string avoids the newline padding. */
  lemma OccurrenceInsidePadding(k: string, s: string, a: int, b: int, j: int)
    requires |k| > 0 && forall i :: 0 <= i < |k| ==> k[i] != '\n'
    requires 0 <= a <= b <= |s|
    requires forall i :: 0 <= i < a ==> s[i] == '\n'
    requires forall i :: b <= i < |s| ==> s[i] == '\n'
    requires OccursAt(k, s, j)
    ensures a <= j && j + |k| <= b
  {
    assert k[0] == s[j..j + |k|][0] == s[j];
    assert k[|k| - 1] == s[j..j + |k|][|k| - 1] == s[j + |k| - 1];
  }

  /** A string with no newline occurs in `s` exactly when it occurs in
      `s.strip("\n")`: stripping only removes newlines. */
  lemma SubstringOfStrip(k: string, s: string)
    requires |k| > 0 && forall i :: 0 <= i < |k| ==> k[i] != '\n'
    ensures IsSubstring(k, StripNewlines(s)) <==> IsSubstring(k, s)
  {
    var a, b := StripCut(s);
    SubstringOfPaddedSlice(k, s, a, b);
  }

  /** Python's string order: by code point, a proper prefix first. */
  predicate Less(a: string, b: string)
    decreases |a|
  {
    if a == [] then b != []
    else if b == [] then false
    else if a[0] != b[0] then a[0] < b[0]
    else Less(a[1..], b[1..])
  }

  lemma {:induction false} LessAsymmetric(a: string, b: string)
    ensures !(Less(a, b) && Less(b, a))
    decreases |a|
  {
    if a != [] && b != [] && a[0] == b[0] {
      LessAsymmetric(a[1..], b[1..]);
    }
  }

  lemma LessIrreflexive(a: string)
    ensures !Less(a, a)
  {
    LessAsymmetric(a, a);
  }

  lemma {:induction false} LessTotal(a: string, b: string)
    requires a != b
    ensures Less(a, b) || Less(b, a)
    decreases |a|
  {
    if a != [] && b != [] && a[0] == b[0] {
      assert a == [a[0]] + a[1..] && b == [b[0]] + b[1..];
      LessTotal(a[1..], b[1..]);
    }
  }

  lemma {:induction false} LessTransitive(a: string, b: string, c: string)
    requires Less(a, b) && Less(b, c)
    ensures Less(a, c)
    decreases |a|
  {
    if a != [] && b != [] && c != [] && a[0] == b[0] == c[0] {
      LessTransitive(a[1..], b[1..], c[1..]);
    }
  }
}
