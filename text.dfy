/** Character and string helpers the transformer relies on: the letter test of
    the scanner, single-character `strings.Replace`, HTML escaping and the
    substring test used to decide whether the output is HTML. */
module Text {

  /** `unicode.IsLetter`, exact for every code point below U+0100 (ASCII and
      Latin-1 Supplement); every character from U+0100 on counts as a non-letter. */
  predicate IsLetter(c: char) {
    || ('A' <= c <= 'Z')
    || ('a' <= c <= 'z')
    || c == '\U{AA}' || c == '\U{B5}' || c == '\U{BA}'
    || ('\U{C0}' <= c <= '\U{D6}')
    || ('\U{D8}' <= c <= '\U{F6}')
    || ('\U{F8}' <= c <= '\U{FF}')
  }

  /** `strings.Replace(s, [pat], rep, -1)`: every occurrence of the one-character
      pattern `pat` is replaced by `rep`. */
  function ReplaceAll(s: string, pat: char, rep: string): string {
    if s == [] then []
    else (if s[0] == pat then rep else [s[0]]) + ReplaceAll(s[1..], pat, rep)
  }

  /** A text without the pattern is left as it is. */
  lemma {:induction false} ReplaceAllAbsent(s: string, pat: char, rep: string)
    requires pat !in s
    ensures ReplaceAll(s, pat, rep) == s
  {
    if s != [] {
      assert pat !in s[1..];
      ReplaceAllAbsent(s[1..], pat, rep);
    }
  }

  lemma {:induction false} ReplaceAllConcat(a: string, b: string, pat: char, rep: string)
    ensures ReplaceAll(a + b, pat, rep) == ReplaceAll(a, pat, rep) + ReplaceAll(b, pat, rep)
  {
    if a == [] {
      assert a + b == b;
    } else {
      var ab := a + b;
      var h := if a[0] == pat then rep else [a[0]];
      assert ab[0] == a[0] && ab[1..] == a[1..] + b;
      assert ReplaceAll(ab, pat, rep) == h + ReplaceAll(ab[1..], pat, rep);
      assert ReplaceAll(a, pat, rep) == h + ReplaceAll(a[1..], pat, rep);
      ReplaceAllConcat(a[1..], b, pat, rep);
    }
  }

  /** The four passes of `addToOutputString` in html mode, in the source's order:
      `&` first, then `<`, then `>`, then newline. */
  function EscapePasses(text: string): string {
    ReplaceAll(ReplaceAll(ReplaceAll(ReplaceAll(text, '&', "&amp;"), '<', "&lt;"), '>', "&gt;"), '\n', "<br>\n")
  }

  /** What HTML escaping does to one character. */
  function EscapeChar(c: char): string {
    if c == '&' then "&amp;"
    else if c == '<' then "&lt;"
    else if c == '>' then "&gt;"
    else if c == '\n' then "<br>\n"
    else [c]
  }

  /** Character-wise escaping: an independent reference definition of the four passes. */
  function EscapeEach(s: string): string {
    if s == [] then [] else EscapeChar(s[0]) + EscapeEach(s[1..])
  }

  predicate IsHtmlSpecial(c: char) {
    c == '&' || c == '<' || c == '>' || c == '\n'
  }

  lemma ReplaceAllChar(c: char, pat: char, rep: string)
    ensures ReplaceAll([c], pat, rep) == if c == pat then rep else [c]
  {
    assert [c][1..] == [];
  }

  lemma EscapePassesChar(c: char)
    ensures EscapePasses([c]) == EscapeChar(c)
  {
    assert '<' !in "&amp;" && '>' !in "&amp;" && '\n' !in "&amp;";
    assert '>' !in "&lt;" && '\n' !in "&lt;" && '\n' !in "&gt;";
    ReplaceAllChar(c, '&', "&amp;");
    if c == '&' {
      ReplaceAllAbsent("&amp;", '<', "&lt;");
      ReplaceAllAbsent("&amp;", '>', "&gt;");
      ReplaceAllAbsent("&amp;", '\n', "<br>\n");
      return;
    }
    ReplaceAllChar(c, '<', "&lt;");
    if c == '<' {
      ReplaceAllAbsent("&lt;", '>', "&gt;");
      ReplaceAllAbsent("&lt;", '\n', "<br>\n");
      return;
    }
    ReplaceAllChar(c, '>', "&gt;");
    if c == '>' {
      ReplaceAllAbsent("&gt;", '\n', "<br>\n");
      return;
    }
    ReplaceAllChar(c, '\n', "<br>\n");
  }

  lemma {:induction false} EscapePassesConcat(a: string, b: string)
    ensures EscapePasses(a + b) == EscapePasses(a) + EscapePasses(b)
  {
    var p1a, p1b := ReplaceAll(a, '&', "&amp;"), ReplaceAll(b, '&', "&amp;");
    ReplaceAllConcat(a, b, '&', "&amp;");
    var p2a, p2b := ReplaceAll(p1a, '<', "&lt;"), ReplaceAll(p1b, '<', "&lt;");
    ReplaceAllConcat(p1a, p1b, '<', "&lt;");
    var p3a, p3b := ReplaceAll(p2a, '>', "&gt;"), ReplaceAll(p2b, '>', "&gt;");
    ReplaceAllConcat(p2a, p2b, '>', "&gt;");
    ReplaceAllConcat(p3a, p3b, '\n', "<br>\n");
  }

  /** Replacing `&` before the other three makes the sequential passes equal to
      escaping each character on its own: no entity introduced by a later pass is
      escaped again. */
  function EscapeHtml(text: string): (r: string)
    ensures r == EscapeEach(text)
  {
    EscapeHtmlPerChar(text);
    EscapePasses(text)
  }

  lemma {:induction false} EscapeHtmlPerChar(t: string)
    ensures EscapePasses(t) == EscapeEach(t)
  {
    if t != [] {
      assert t == [t[0]] + t[1..];
      EscapePassesConcat([t[0]], t[1..]);
      EscapePassesChar(t[0]);
      EscapeHtmlPerChar(t[1..]);
    }
  }

  lemma {:induction false} EscapeEachConcat(a: string, b: string)
    ensures EscapeEach(a + b) == EscapeEach(a) + EscapeEach(b)
  {
    if a == [] {
      assert a + b == b;
    } else {
      assert (a + b)[0] == a[0] && (a + b)[1..] == a[1..] + b;
      EscapeEachConcat(a[1..], b);
      calc {
        EscapeEach(a + b);
        EscapeChar(a[0]) + EscapeEach(a[1..] + b);
        EscapeChar(a[0]) + (EscapeEach(a[1..]) + EscapeEach(b));
        (EscapeChar(a[0]) + EscapeEach(a[1..])) + EscapeEach(b);
      }
    }
  }

  /** Escaping never shortens the text, and it leaves the text unchanged exactly
      when no character of it is one of `& < > newline`. */
  lemma {:induction false} EscapeEachIdentity(t: string)
    ensures |EscapeEach(t)| >= |t|
    ensures EscapeEach(t) == t <==> forall i :: 0 <= i < |t| ==> !IsHtmlSpecial(t[i])
  {
    if t != [] {
      EscapeEachIdentity(t[1..]);
      if IsHtmlSpecial(t[0]) {
        assert |EscapeEach(t)| > |t|;
      } else {
        assert EscapeEach(t) == [t[0]] + EscapeEach(t[1..]);
        forall i | 0 < i < |t| ensures t[i] == t[1..][i - 1] { }
      }
    }
  }

  predicate StartsWith(s: string, prefix: string) {
    |prefix| <= |s| && s[..|prefix|] == prefix
  }

  /** `strings.Contains(s, sub)`. */
  predicate Contains(s: string, sub: string)
    decreases |s|
  {
    StartsWith(s, sub) || (|s| > 0 && Contains(s[1..], sub))
  }

  /** `sub` occurs in `s` starting at position `i`. */
  predicate OccursAt(s: string, sub: string, i: int) {
    0 <= i <= |s| - |sub| && s[i..i + |sub|] == sub
  }

  /** `Contains` holds exactly when `sub` occurs at some position of `s`. */
  lemma {:induction false} ContainsAt(s: string, sub: string)
    ensures Contains(s, sub) <==> exists i :: OccursAt(s, sub, i)
    decreases |s|
  {
    if StartsWith(s, sub) {
      assert OccursAt(s, sub, 0);
    } else if |s| > 0 {
      ContainsAt(s[1..], sub);
      if exists i :: OccursAt(s, sub, i) {
        var i :| OccursAt(s, sub, i);
        assert i != 0;
        assert OccursAt(s[1..], sub, i - 1);
      }
      if Contains(s[1..], sub) {
        var j :| OccursAt(s[1..], sub, j);
        assert OccursAt(s, sub, j + 1);
      }
    } else {
      forall i ensures !OccursAt(s, sub, i) {
        assert |sub| > 0;
      }
    }
  }

  /** A non-empty pattern can only occur in a text that holds its first character. */
  lemma {:induction false} ContainsFirstChar(s: string, sub: string)
    requires |sub| > 0 && sub[0] !in s
    ensures !Contains(s, sub)
    decreases |s|
  {
    if |s| > 0 {
      assert s[0] != sub[0];
      ContainsFirstChar(s[1..], sub);
    }
  }
}
