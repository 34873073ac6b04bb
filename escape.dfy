/**
 * The handler's HTML escaper `esc`: four global replacements applied one after the
 * other, `&` first, then `<`, `>` and `"`. The single quote is left alone.
 *
 * Beside it: a reference escaper that maps each character on its own, a decoder
 * for the four entities, and the facts that make the escaper safe and lossless.
 */
module HtmlEscape {
  import opened Text

  /** `s.replace(/c/g, rep)` for a one-character pattern `c`. */
  function ReplaceAll(s: string, c: char, rep: string): string {
    if s == [] then []
    else (if s[0] == c then rep else [s[0]]) + ReplaceAll(s[1..], c, rep)
  }

  /** `esc`, as the handler writes it. */
  function Esc(s: string): string {
    ReplaceAll(ReplaceAll(ReplaceAll(ReplaceAll(s, '&', "&amp;"), '<', "&lt;"), '>', "&gt;"), '"', "&quot;")
  }

  /** What one character becomes. */
  function EscapeChar(c: char): string {
    match c
    case '&' => "&amp;"
    case '<' => "&lt;"
    case '>' => "&gt;"
    case '"' => "&quot;"
    case _ => [c]
  }

  /** The characters `esc` rewrites. */
  predicate IsSpecial(c: char) {
    c == '&' || c == '<' || c == '>' || c == '"'
  }

  /** An entity `esc` produces begins at position `i` of `s`. */
  predicate EntityAt(s: string, i: nat)
    requires i <= |s|
  {
    var t := s[i..];
    "&amp;" <= t || "&lt;" <= t || "&gt;" <= t || "&quot;" <= t
  }

  /** No raw `<`, `>` or `"`, and each `&` starts an entity. */
  predicate MarkupFree(r: string) {
    && (forall k :: 0 <= k < |r| ==> r[k] != '<' && r[k] != '>' && r[k] != '"')
    && (forall k :: 0 <= k < |r| && r[k] == '&' ==> EntityAt(r, k))
  }

  /** Reference escaper: each character is replaced independently of the others. */
  function EscapeRef(s: string): string {
    if s == [] then [] else EscapeChar(s[0]) + EscapeRef(s[1..])
  }

  /** The reference escaper writes no raw markup character. */
  lemma {:induction false} EscapeRefMarkupFree(s: string)
    ensures MarkupFree(EscapeRef(s))
  {
    if s != [] {
      EscapeRefMarkupFree(s[1..]);
      EscapeCharMarkupFree(s[0]);
      MarkupFreeConcat(EscapeChar(s[0]), EscapeRef(s[1..]));
    }
  }

  /** Each character's replacement is free of raw markup. */
  lemma EscapeCharMarkupFree(c: char)
    ensures MarkupFree(EscapeChar(c))
  {
    var e := EscapeChar(c);
    if c == '&' || c == '<' || c == '>' || c == '"' {
      assert e[0] == '&' && EntityAt(e, 0);
      assert forall k :: 0 < k < |e| ==> e[k] != '&';
    }
  }

  lemma MarkupFreeConcat(a: string, b: string)
    requires MarkupFree(a) && MarkupFree(b)
    ensures MarkupFree(a + b)
  {
    forall k | 0 <= k < |a + b| && (a + b)[k] == '&'
      ensures EntityAt(a + b, k)
    {
      if k < |a| {
        assert EntityAt(a, k);
        assert (a + b)[k..] == a[k..] + b;
      } else {
        assert (a + b)[k..] == b[k - |a|..];
        assert b[k - |a|] == '&';
      }
    }
  }

  // ---------------------------------------------------------------------------
  // The sequential replacements agree with the per-character escaper.

  lemma {:induction false} ReplaceAllConcat(a: string, b: string, c: char, rep: string)
    ensures ReplaceAll(a + b, c, rep) == ReplaceAll(a, c, rep) + ReplaceAll(b, c, rep)
  {
    if a == [] {
      assert a + b == b;
    } else {
      assert (a + b)[1..] == a[1..] + b;
      ReplaceAllConcat(a[1..], b, c, rep);
    }
  }

  /** Replacing a character that does not occur changes nothing. */
  lemma {:induction false} ReplaceAllAbsent(s: string, c: char, rep: string)
    requires c !in s
    ensures ReplaceAll(s, c, rep) == s
  {
    if s != [] {
      ReplaceAllAbsent(s[1..], c, rep);
    }
  }

  /** `esc` distributes over concatenation. */
  lemma EscConcat(a: string, b: string)
    ensures Esc(a + b) == Esc(a) + Esc(b)
  {
    var a1, b1 := ReplaceAll(a, '&', "&amp;"), ReplaceAll(b, '&', "&amp;");
    ReplaceAllConcat(a, b, '&', "&amp;");
    var a2, b2 := ReplaceAll(a1, '<', "&lt;"), ReplaceAll(b1, '<', "&lt;");
    ReplaceAllConcat(a1, b1, '<', "&lt;");
    var a3, b3 := ReplaceAll(a2, '>', "&gt;"), ReplaceAll(b2, '>', "&gt;");
    ReplaceAllConcat(a2, b2, '>', "&gt;");
    ReplaceAllConcat(a3, b3, '"', "&quot;");
  }

  /** On one character, `esc` gives that character's entity: the `&` of an entity
      introduced by a later pass is never escaped again, because `&` goes first. */
  lemma EscOneChar(c: char)
    ensures Esc([c]) == EscapeChar(c)
  {
    if c == '&' {
      EscAmp(c);
    } else if IsSpecial(c) {
      EscMarkupChar(c);
    } else {
      ReplaceAllOne(c, '&', "&amp;");
      ReplaceAllOne(c, '<', "&lt;");
      ReplaceAllOne(c, '>', "&gt;");
      ReplaceAllOne(c, '"', "&quot;");
    }
  }

  /** The entity for `&` passes the three later replacements untouched. */
  lemma EscAmp(c: char)
    requires c == '&'
    ensures Esc([c]) == EscapeChar(c)
  {
    ReplaceAllOne(c, '&', "&amp;");
    LaterPassesKeep(ReplaceAll([c], '&', "&amp;"));
  }

  /** The `<`, `>` and `"` passes leave a string without those characters alone. */
  lemma LaterPassesKeep(e: string)
    requires '<' !in e && '>' !in e && '"' !in e
    ensures ReplaceAll(ReplaceAll(ReplaceAll(e, '<', "&lt;"), '>', "&gt;"), '"', "&quot;") == e
  {
    ReplaceAllAbsent(e, '<', "&lt;");
    ReplaceAllAbsent(e, '>', "&gt;");
    ReplaceAllAbsent(e, '"', "&quot;");
  }

  /** `<`, `>` and `"` are each replaced by their own pass and kept by the others. */
  lemma EscMarkupChar(c: char)
    requires IsMarkup(c)
    ensures Esc([c]) == EscapeChar(c)
  {
    ReplaceAllOne(c, '&', "&amp;");
    ReplaceAllOne(c, '<', "&lt;");
    if c == '<' {
      ReplaceAllAbsent("&lt;", '>', "&gt;");
      ReplaceAllAbsent("&lt;", '"', "&quot;");
    } else {
      ReplaceAllOne(c, '>', "&gt;");
      if c == '>' {
        ReplaceAllAbsent("&gt;", '"', "&quot;");
      } else {
        ReplaceAllOne(c, '"', "&quot;");
      }
    }
  }

  /** Replacing in a one-character string. */
  lemma ReplaceAllOne(c: char, d: char, rep: string)
    ensures ReplaceAll([c], d, rep) == if c == d then rep else [c]
  {
    assert [c][0] == c && [c][1..] == [];
  }

  /** `esc` is the per-character escaper. */
  lemma {:induction false} EscIsEscapeRef(s: string)
    ensures Esc(s) == EscapeRef(s)
  {
    if s == [] {
    } else {
      assert s == [s[0]] + s[1..];
      EscConcat([s[0]], s[1..]);
      EscOneChar(s[0]);
      EscIsEscapeRef(s[1..]);
    }
  }

  /** The output of `esc` contains no raw `<`, `>` or `"`, and every `&` in it
      begins one of `&amp;`, `&lt;`, `&gt;`, `&quot;`. */
  lemma EscSafe(s: string)
    ensures MarkupFree(Esc(s))
  {
    EscIsEscapeRef(s);
    EscapeRefMarkupFree(s);
  }

  // ---------------------------------------------------------------------------
  // Decoding: `esc` loses no information.

  /** Reads the four entities back; any other character stands for itself. */
  function Unescape(s: string): string
    decreases |s|
  {
    if s == [] then []
    else if "&amp;" <= s then "&" + Unescape(s[5..])
    else if "&lt;" <= s then "<" + Unescape(s[4..])
    else if "&gt;" <= s then ">" + Unescape(s[4..])
    else if "&quot;" <= s then "\"" + Unescape(s[6..])
    else [s[0]] + Unescape(s[1..])
  }

  lemma UnescapeOne(c: char, rest: string)
    ensures Unescape(EscapeChar(c) + rest) == [c] + Unescape(rest)
  {
    var e := EscapeChar(c) + rest;
    if c == '&' {
      assert e[5..] == rest;
    } else if c == '<' {
      assert !("&amp;" <= e) by { assert e[1] == 'l'; }
      assert e[4..] == rest;
    } else if c == '>' {
      assert !("&amp;" <= e) by { assert e[1] == 'g'; }
      assert !("&lt;" <= e) by { assert e[1] == 'g'; }
      assert e[4..] == rest;
    } else if c == '"' {
      assert !("&amp;" <= e) by { assert e[1] == 'q'; }
      assert !("&lt;" <= e) by { assert e[1] == 'q'; }
      assert !("&gt;" <= e) by { assert e[1] == 'q'; }
      assert e[6..] == rest;
    } else {
      assert e[0] == c && e[1..] == rest;
    }
  }

  /** Decoding undoes escaping. */
  lemma {:induction false} UnescapeEsc(s: string)
    ensures Unescape(Esc(s)) == s
  {
    EscIsEscapeRef(s);
    if s != [] {
      UnescapeOne(s[0], EscapeRef(s[1..]));
      UnescapeEsc(s[1..]);
      EscIsEscapeRef(s[1..]);
    }
  }

  /** Distinct inputs give distinct outputs. */
  lemma EscInjective(a: string, b: string)
    requires Esc(a) == Esc(b)
    ensures a == b
  {
    UnescapeEsc(a);
    UnescapeEsc(b);
  }

  /** A value without special characters is left as it is; in particular `esc`
      keeps the single quote. */
  lemma {:induction false} EscPlain(s: string)
    requires forall k :: 0 <= k < |s| ==> !IsSpecial(s[k])
    ensures Esc(s) == s
  {
    EscIsEscapeRef(s);
    if s != [] {
      EscPlain(s[1..]);
      EscIsEscapeRef(s[1..]);
    }
  }

  /** Markup inside a value becomes inert text: a tag around plain text, such as
      `<b>X</b>`, is written out as `&lt;b&gt;X&lt;/b&gt;`. */
  lemma EscTag(tag: string, body: string)
    requires forall k :: 0 <= k < |tag| ==> !IsSpecial(tag[k])
    requires forall k :: 0 <= k < |body| ==> !IsSpecial(body[k])
    ensures Esc("<" + tag + ">" + body + "</" + tag + ">")
         == "&lt;" + tag + "&gt;" + body + "&lt;/" + tag + "&gt;"
  {
    EscPlain(tag);
    EscPlain(body);
    EscBrackets();
    var p1 := "<" + tag;
    EscConcat("<", tag);
    var p2 := p1 + ">";
    EscConcat(p1, ">");
    var p3 := p2 + body;
    EscConcat(p2, body);
    var p4 := p3 + "</";
    EscConcat(p3, "</");
    var p5 := p4 + tag;
    EscConcat(p4, tag);
    EscConcat(p5, ">");
  }

  /** How the pieces of a tag escape. */
  lemma EscBrackets()
    ensures Esc("<") == "&lt;" && Esc(">") == "&gt;" && Esc("</") == "&lt;/"
  {
    EscOneChar('<');
    EscOneChar('>');
    EscPlain("/");
    EscConcat("<", "/");
  }

  /** The characters that open or close markup: `<`, `>` and `"`. */
  predicate IsMarkup(c: char) {
    c == '<' || c == '>' || c == '"'
  }

  /** `esc` never writes any of the markup characters, so it adds none to a count. */
  lemma EscCountZero(s: string, c: char)
    requires IsMarkup(c)
    ensures Count(Esc(s), c) == 0
  {
    EscSafe(s);
    CountZero(Esc(s), c);
  }
}
