/**
 * The handler's `isValidEmail`, the test of `/^[^\s@]+@[^\s@]+\.[^\s@]{2,}$/`.
 * It is a shape check, not an address parser, and it only decides whether the
 * notification gets a reply-to address.
 */
module EmailShape {
  import opened Text

  /** A character of the class `[^\s@]`. */
  predicate IsAddrChar(c: char) {
    !IsSpace(c) && c != '@'
  }

  predicate AddrChars(s: string) {
    forall k :: 0 <= k < |s| ==> IsAddrChar(s[k])
  }

  /** The first position at or after `from` holding `c`, or `|s|` when there is none. */
  function IndexOfFrom(s: string, c: char, from: nat): (i: nat)
    requires from <= |s|
    ensures from <= i <= |s|
    ensures forall m :: from <= m < i ==> s[m] != c
    ensures i < |s| ==> s[i] == c
    decreases |s| - from
  {
    if from == |s| || s[from] == c then from else IndexOfFrom(s, c, from + 1)
  }

  /** The domain `[^\s@]+\.[^\s@]{2,}`: only address characters, and a dot with at
      least one character before it and at least two UTF-16 code units after it
      (the pattern has no `u` flag, so `{2,}` counts code units and one emoji is
      enough). Backtracking lets the regular expression use any such dot, so the
      first dot past position 0 decides. */
  predicate IsDomain(d: string) {
    && AddrChars(d)
    && var j := IndexOfFrom(d, '.', if |d| == 0 then 0 else 1);
       j < |d| && Utf16Len(d[j + 1..]) >= 2
  }

  /** `isValidEmail(value)`: a non-empty local part of address characters up to
      the first `@`, then a domain. */
  predicate IsValidEmail(s: string) {
    var k := IndexOfFrom(s, '@', 0);
    1 <= k < |s| && AddrChars(s[..k]) && IsDomain(s[k + 1..])
  }

  /** `s` is `local@host.tld` with the three parts as the pattern asks; the last
      part has at least two UTF-16 code units. */
  predicate IsShape(s: string, local: string, host: string, tld: string) {
    && s == local + "@" + host + "." + tld
    && |local| >= 1 && |host| >= 1 && Utf16Len(tld) >= 2
    && AddrChars(local) && AddrChars(host) && AddrChars(tld)
  }

  /** What the regular expression accepts, read off its grammar. */
  ghost predicate MatchesPattern(s: string) {
    exists local, host, tld :: IsShape(s, local, host, tld)
  }

  /** The check agrees with the grammar of the pattern, in both directions. */
  lemma IsValidEmailIff(s: string)
    ensures IsValidEmail(s) <==> MatchesPattern(s)
  {
    if IsValidEmail(s) {
      ValidHasShape(s);
    }
    if MatchesPattern(s) {
      var local, host, tld :| IsShape(s, local, host, tld);
      ShapeIsValid(s, local, host, tld);
    }
  }

  /** A valid value splits at its first `@` and at the first dot of the domain. */
  lemma ValidHasShape(s: string)
    requires IsValidEmail(s)
    ensures MatchesPattern(s)
  {
    var k := IndexOfFrom(s, '@', 0);
    var d := s[k + 1..];
    var host, tld := DomainSplits(d);
    SplitAt(s, k);
    assert [s[k]] == "@";
    JoinShape(s, s[..k], d, host, tld);
  }

  /** Gluing a local part to a split domain gives the shape of the pattern. */
  lemma JoinShape(s: string, local: string, d: string, host: string, tld: string)
    requires s == local + "@" + d && d == host + "." + tld
    requires |local| >= 1 && |host| >= 1 && Utf16Len(tld) >= 2
    requires AddrChars(local) && AddrChars(host) && AddrChars(tld)
    ensures IsShape(s, local, host, tld)
  {
    ConcatAssoc(local + "@", host + ".", tld);
  }

  /** A domain is `host.tld`, split at its first dot past position 0. */
  lemma DomainSplits(d: string) returns (host: string, tld: string)
    requires IsDomain(d)
    ensures d == host + "." + tld
    ensures |host| >= 1 && Utf16Len(tld) >= 2 && AddrChars(host) && AddrChars(tld)
  {
    var j := IndexOfFrom(d, '.', 1);
    host, tld := d[..j], d[j + 1..];
    AddrCharsSlice(d, 0, j);
    AddrCharsSlice(d, j + 1, |d|);
    SplitAt(d, j);
    assert [d[j]] == ".";
  }

  /** A string is its prefix, one character and its suffix. */
  lemma SplitAt(s: string, k: nat)
    requires k < |s|
    ensures s == s[..k] + [s[k]] + s[k + 1..]
  {
  }

  lemma ConcatAssoc(a: string, b: string, c: string)
    ensures a + (b + c) == a + b + c
  {
  }

  /** A slice of address characters holds only address characters. */
  lemma AddrCharsSlice(s: string, i: nat, j: nat)
    requires i <= j <= |s| && AddrChars(s)
    ensures AddrChars(s[i..j])
  {
    assert forall m :: 0 <= m < j - i ==> s[i..j][m] == s[i + m];
  }

  lemma ShapeIsValid(s: string, local: string, host: string, tld: string)
    requires IsShape(s, local, host, tld)
    ensures IsValidEmail(s)
  {
    var n := |local|;
    var k := IndexOfFrom(s, '@', 0);
    assert s[n] == '@';
    assert forall m :: 0 <= m < n ==> s[m] == local[m];
    assert k == n;
    var d := s[k + 1..];
    assert d == host + "." + tld;
    assert s[..k] == local;
    ShapeDomain(d, host, tld);
  }

  /** `host.tld` with parts as the pattern asks is a domain. */
  lemma ShapeDomain(d: string, host: string, tld: string)
    requires d == host + "." + tld && |host| >= 1 && Utf16Len(tld) >= 2
    requires AddrChars(host) && AddrChars(tld)
    ensures IsDomain(d)
  {
    assert AddrChars(d) by {
      forall m | 0 <= m < |d| ensures IsAddrChar(d[m]) {
        if m < |host| {
          assert d[m] == host[m];
        } else if m > |host| {
          assert d[m] == tld[m - |host| - 1];
        }
      }
    }
    assert d[|host|] == '.';
    var j := IndexOfFrom(d, '.', 1);
    assert d[|host| + 1..] == tld;
    assert d[j + 1..] == d[j + 1..|host| + 1] + tld;
    Utf16LenConcat(d[j + 1..|host| + 1], tld);
  }

  /** A valid value contains exactly one `@` and no whitespace. */
  lemma ValidEmailFacts(s: string)
    requires IsValidEmail(s)
    ensures Count(s, '@') == 1
    ensures forall m :: 0 <= m < |s| ==> !IsSpace(s[m])
  {
    var k := IndexOfFrom(s, '@', 0);
    SplitAt(s, k);
    assert [s[k]] == "@";
    AtBetween(s, s[..k], s[k + 1..]);
  }

  /** One `@` between two runs of address characters. */
  lemma AtBetween(s: string, local: string, d: string)
    requires s == local + "@" + d && AddrChars(local) && AddrChars(d)
    ensures Count(s, '@') == 1
    ensures forall m :: 0 <= m < |s| ==> !IsSpace(s[m])
  {
    var k := |local|;
    NoAtIn(local);
    NoAtIn(d);
    CountConcat(local, "@", '@');
    CountConcat(local + "@", d, '@');
    forall m | 0 <= m < |s| ensures !IsSpace(s[m]) {
      if m < k {
        assert s[m] == local[m];
      } else if m > k {
        assert s[m] == d[m - k - 1];
      }
    }
  }

  /** A string of address characters holds no `@`. */
  lemma NoAtIn(s: string)
    requires AddrChars(s)
    ensures Count(s, '@') == 0
  {
    CountZero(s, '@');
    assert forall m :: 0 <= m < |s| ==> s[m] != '@';
  }

  /** `a@b.co` is accepted. */
  lemma AcceptedExample()
    ensures IsValidEmail("a@b.co")
  {
    assert IsShape("a@b.co", "a", "b", "co");
    ShapeIsValid("a@b.co", "a", "b", "co");
  }

  /** `not-an-email`, which has no `@`, is rejected. */
  lemma RejectedExample()
    ensures !IsValidEmail("not-an-email")
  {
    var bad := "not-an-email";
    assert forall m :: 0 <= m < |bad| ==> bad[m] != '@';
  }

  /** A last part made of one character outside the Basic Multilingual Plane is
      two UTF-16 code units, which `{2,}` accepts: `a@b.` followed by an emoji is
      valid. */
  lemma AstralExample(e: char)
    requires e > '\U{FFFF}'
    ensures IsValidEmail("a@b." + [e])
  {
    assert Utf16Len([e]) == 2 by { assert [e][1..] == []; }
    assert IsShape("a@b." + [e], "a", "b", [e]);
    ShapeIsValid("a@b." + [e], "a", "b", [e]);
  }

  /** A last part of one ordinary character is too short: `a@b.c` is rejected. */
  lemma ShortTldExample()
    ensures !IsValidEmail("a@b.c")
  {
    var s := "a@b.c";
    assert IndexOfFrom(s, '@', 0) == 1;
    var d := s[2..];
    assert d == "b.c";
    assert IndexOfFrom(d, '.', 1) == 1;
    assert d[2..] == "c";
  }
}
