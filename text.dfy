/**
 * String helpers the handler relies on: JavaScript's whitespace class (shared by
 * `String.prototype.trim` and the regular-expression class `\s`), trimming,
 * `Array.prototype.join`, substring occurrence, character counting, and string
 * length as JavaScript reports it.
 */
module Text {

  /** ECMAScript WhiteSpace and LineTerminator code points, the set `trim` removes
      and `\s` matches: tab, line feed, vertical tab, form feed, carriage return,
      the Unicode space separators, line and paragraph separator, and the byte
      order mark. */
  predicate IsSpace(c: char) {
    || c == '\t' || c == '\n' || c == '\U{000B}' || c == '\U{000C}' || c == '\r'
    || c == ' ' || c == '\U{00A0}' || c == '\U{1680}'
    || ('\U{2000}' <= c <= '\U{200A}')
    || c == '\U{2028}' || c == '\U{2029}' || c == '\U{202F}' || c == '\U{205F}'
    || c == '\U{3000}' || c == '\U{FEFF}'
  }

  /** Every character of `s` in positions `lo..hi` is whitespace. */
  predicate SpacesIn(s: string, lo: nat, hi: nat)
    requires lo <= hi <= |s|
  {
    forall k :: lo <= k < hi ==> IsSpace(s[k])
  }

  predicate AllSpace(s: string) {
    SpacesIn(s, 0, |s|)
  }

  /** No whitespace at either end: what every trimmed string satisfies. */
  predicate IsTrimmed(s: string) {
    s == [] || (!IsSpace(s[0]) && !IsSpace(s[|s| - 1]))
  }

  /** The position of the first non-whitespace character at or after `k` (or
      `|s|`): everything skipped is whitespace. */
  function SkipSpaces(s: string, k: nat): (i: nat)
    requires k <= |s|
    ensures k <= i <= |s| && SpacesIn(s, k, i)
    ensures i < |s| ==> !IsSpace(s[i])
    decreases |s| - k
  {
    if k == |s| || !IsSpace(s[k]) then k else SkipSpaces(s, k + 1)
  }

  /** The end of the last non-whitespace character before `j`, not going below
      `lo`: everything skipped is whitespace. */
  function SkipSpacesBack(s: string, lo: nat, j: nat): (e: nat)
    requires lo <= j <= |s|
    ensures lo <= e <= j && SpacesIn(s, e, j)
    ensures lo < e ==> !IsSpace(s[e - 1])
    decreases j
  {
    if j == lo || !IsSpace(s[j - 1]) then j else SkipSpacesBack(s, lo, j - 1)
  }

  /** The whitespace margins of `s`, as a specification: `r` is the slice `s[i..j]`,
      everything outside it is whitespace and `r` has no whitespace at its ends. */
  predicate IsTrimOf(s: string, r: string, i: nat, j: nat) {
    && i <= j <= |s| && r == s[i..j]
    && SpacesIn(s, 0, i) && SpacesIn(s, j, |s|)
    && (i < j ==> !IsSpace(s[i]) && !IsSpace(s[j - 1]))
  }

  /** `String.prototype.trim`. */
  function Trim(s: string): (r: string)
    ensures IsTrimmed(r)
    ensures IsTrimOf(s, r, SkipSpaces(s, 0), SkipSpacesBack(s, SkipSpaces(s, 0), |s|))
  {
    var i := SkipSpaces(s, 0);
    var j := SkipSpacesBack(s, i, |s|);
    assert i < j ==> s[i..j][0] == s[i] && s[i..j][j - i - 1] == s[j - 1];
    s[i..j]
  }

  /** Trimming is determined by its specification: any slice that cuts off only
      whitespace and keeps no whitespace at its ends is the result of `Trim`. */
  lemma TrimUnique(s: string, r: string, i: nat, j: nat)
    requires IsTrimOf(s, r, i, j)
    ensures r == Trim(s)
  {
    var i' := SkipSpaces(s, 0);
    var j' := SkipSpacesBack(s, i', |s|);
    if i < j {
      NonSpaceInside(s, i', j', i);
      NonSpaceInside(s, i, j, i');
      NonSpaceInside(s, i', j', j - 1);
      NonSpaceInside(s, i, j, j' - 1);
    } else if i' < j' {
      NonSpaceInside(s, i, j, i');
    }
  }

  /** A non-whitespace character of `s` lies inside every trimmed slice of `s`. */
  lemma NonSpaceInside(s: string, i: nat, j: nat, k: nat)
    requires i <= j <= |s| && SpacesIn(s, 0, i) && SpacesIn(s, j, |s|)
    requires k < |s| && !IsSpace(s[k])
    ensures i <= k < j
  {
  }

  /** Trimming twice changes nothing. */
  lemma TrimIdempotent(s: string)
    ensures Trim(Trim(s)) == Trim(s)
  {
    var t := Trim(s);
    assert IsTrimOf(t, t, 0, |t|) by {
      assert t[0..|t|] == t;
    }
    TrimUnique(t, t, 0, |t|);
  }

  /** A string made only of whitespace (the empty string included) trims to "". */
  lemma TrimAllSpace(s: string)
    requires AllSpace(s)
    ensures Trim(s) == []
  {
    var i := SkipSpaces(s, 0);
    assert i == |s|;
  }

  /** `Array.prototype.join(sep)`. */
  function Join(lines: seq<string>, sep: string): string {
    if |lines| == 0 then []
    else if |lines| == 1 then lines[0]
    else lines[0] + sep + Join(lines[1..], sep)
  }

  /** `t` occurs in `s` starting at position `p`. */
  predicate OccursAt(s: string, t: string, p: nat) {
    p + |t| <= |s| && s[p..p + |t|] == t
  }

  /** `s.includes(t)`. */
  ghost predicate Contains(s: string, t: string) {
    exists p: nat :: OccursAt(s, t, p)
  }

  /** Every line of a joined list occurs in the joined text. */
  lemma {:induction false} JoinContains(lines: seq<string>, sep: string, k: nat)
    requires k < |lines|
    ensures Contains(Join(lines, sep), lines[k])
  {
    if |lines| == 1 {
      assert OccursAt(Join(lines, sep), lines[k], 0);
    } else if k == 0 {
      assert OccursAt(Join(lines, sep), lines[0], 0);
    } else {
      JoinContains(lines[1..], sep, k - 1);
      var rest := Join(lines[1..], sep);
      var p: nat :| OccursAt(rest, lines[k], p);
      var q := |lines[0]| + |sep|;
      assert Join(lines, sep) == (lines[0] + sep) + rest;
      assert Join(lines, sep)[q + p..q + p + |lines[k]|] == rest[p..p + |lines[k]|];
      assert OccursAt(Join(lines, sep), lines[k], q + p);
    }
  }

  /** An occurrence survives text added on either side. */
  lemma ContainsExtend(a: string, t: string, b: string)
    requires Contains(a, t)
    ensures Contains(a + b, t) && Contains(b + a, t)
  {
    var p: nat :| OccursAt(a, t, p);
    assert (a + b)[p..p + |t|] == a[p..p + |t|];
    assert OccursAt(a + b, t, p);
    assert (b + a)[|b| + p..|b| + p + |t|] == a[p..p + |t|];
    assert OccursAt(b + a, t, |b| + p);
  }

  /** Every string contains itself. */
  lemma ContainsSelf(t: string)
    ensures Contains(t, t)
  {
    assert OccursAt(t, t, 0);
  }

  /** Number of occurrences of `c` in `s`. */
  function Count(s: string, c: char): nat {
    if s == [] then 0 else (if s[0] == c then 1 else 0) + Count(s[1..], c)
  }

  /** Counting is additive over concatenation. */
  lemma {:induction false} CountConcat(a: string, b: string, c: char)
    ensures Count(a + b, c) == Count(a, c) + Count(b, c)
  {
    if a == [] {
      assert a + b == b;
    } else {
      assert (a + b)[1..] == a[1..] + b;
      CountConcat(a[1..], b, c);
    }
  }

  /** `Count` is zero exactly when the character does not occur. */
  lemma {:induction false} CountZero(s: string, c: char)
    ensures Count(s, c) == 0 <==> c !in s
  {
    if s != [] {
      CountZero(s[1..], c);
      assert c in s <==> s[0] == c || c in s[1..];
    }
  }

  /** `s.length`: JavaScript strings are UTF-16, so a code point above U+FFFF
      (an emoji, say) counts as two code units; every other one counts as one. */
  function Utf16Len(s: string): (n: nat)
    ensures |s| <= n <= 2 * |s|
  {
    if s == [] then 0 else (if s[0] > '\U{FFFF}' then 2 else 1) + Utf16Len(s[1..])
  }

  /** Lengths add up over concatenation. */
  lemma {:induction false} Utf16LenConcat(a: string, b: string)
    ensures Utf16Len(a + b) == Utf16Len(a) + Utf16Len(b)
  {
    if a == [] {
      assert a + b == b;
    } else {
      assert (a + b)[1..] == a[1..] + b;
      Utf16LenConcat(a[1..], b);
    }
  }

  /** On text from the Basic Multilingual Plane the JavaScript length is the
      number of characters. */
  lemma {:induction false} Utf16LenBmp(s: string)
    requires forall k :: 0 <= k < |s| ==> s[k] <= '\U{FFFF}'
    ensures Utf16Len(s) == |s|
  {
    if s != [] {
      Utf16LenBmp(s[1..]);
    }
  }
}
