/** Properties of the whole scan: it composes over concatenation, its output
    only grows, a comment is dropped up to and including its newline, and plain
    text passes through unchanged. Also the final trim of the transformer, as
    written and as evidently intended. */
module ScanProperties {
  import opened Wrappers
  import opened Text
  import opened Commands
  import opened TS = TransformState
  import opened LatexSpec

  // ---------------------------------------------------------------------
  // Composition and growth

  /** Scanning `a + b` is scanning `a` and then `b`. */
  lemma {:induction false} RunConcat(s: State, a: string, b: string)
    ensures Run(s, a + b) == Run(Run(s, a), b)
    decreases |b|
  {
    if b == [] {
      assert a + b == a;
    } else {
      var init := b[..|b| - 1];
      assert (a + b)[..|a + b| - 1] == a + init;
      assert (a + b)[|a + b| - 1] == b[|b| - 1];
      RunConcat(s, a, init);
    }
  }

  /** Scanning one more character is one more step. */
  lemma RunSnoc(s: State, init: string, c: char)
    ensures Run(s, init + [c]) == HandleCharacter(Run(s, init), c).state
  {
    assert (init + [c])[..|init|] == init;
  }

  /** A scan only appends to the output. */
  lemma {:induction false} RunGrows(s: State, input: string)
    ensures s.currentString <= Run(s, input).currentString
    decreases |input|
  {
    if input != [] {
      RunGrows(s, input[..|input| - 1]);
    }
  }

  // ---------------------------------------------------------------------
  // Comments

  /** Inside a comment every character but the newline is dropped, and the
      newline ends the comment without being emitted. */
  lemma CommentStep(s: State, c: char)
    requires s.prevToken.ttype == Comment
    ensures HandleCharacter(s, c) ==
      Step(if c == '\n' then s.(prevToken := Token(NoToken, "")) else s, Pass)
  {
  }

  /** A comment swallows any text without a newline. */
  lemma {:induction false} CommentSkips(s: State, text: string)
    requires s.prevToken.ttype == Comment
    requires '\n' !in text
    ensures Run(s, text) == s
    decreases |text|
  {
    if text != [] {
      var init := text[..|text| - 1];
      assert text[|text| - 1] in text;
      assert '\n' !in init by {
        forall i | 0 <= i < |init| ensures init[i] != '\n' {
          assert init[i] == text[i];
        }
      }
      CommentSkips(s, init);
      CommentStep(s, text[|text| - 1]);
    }
  }

  /** With nothing pending, `%`, the rest of the line and its newline leave no
      output behind: only the log records the removed comment. */
  lemma CommentRemoved(s: State, text: string)
    requires s.prevToken == Token(NoToken, "")
    requires '\n' !in text
    ensures Run(s, "%" + text + "\n") == Log(s, "Removed comment")
  {
    var s1 := Log(s, "Removed comment").(prevToken := Token(Comment, ""));
    assert Run(s, "%") == s1 by {
      assert "%"[..0] == [];
    }
    RunConcat(s, "%", text);
    CommentSkips(s1, text);
    RunConcat(s, "%" + text, "\n");
    assert Run(s1, "\n") == s1.(prevToken := Token(NoToken, "")) by {
      assert "\n"[..0] == [];
      CommentStep(s1, '\n');
    }
  }

  // ---------------------------------------------------------------------
  // Plain text

  /** A character that starts no token. */
  predicate PlainChar(c: char) {
    c != '$' && c != '\\' && c != '%'
  }

  /** Nothing pending and no closing action waiting. */
  predicate Quiet(s: State) {
    s.prevToken == Token(NoToken, "") && s.braceReplacement == [] && s.bracketReplacement == None
  }

  /** In a quiet state a plain character is emitted (escaped when the output is
      HTML) and the state stays quiet. */
  lemma PlainStep(s: State, c: char)
    requires Quiet(s) && PlainChar(c)
    ensures var r := HandleCharacter(s, c).state;
      Quiet(r) && r.currentString == s.currentString + Escaped(s.html, [c]) && r.html == s.html
    ensures var r := HandleCharacter(s, c).state;
      r.mode == s.mode && r.envMode == s.envMode && r.environmentStack == s.environmentStack
  {
    BraceCheckFrame(s, c);
  }

  /** A plain character in a quiet state logs nothing and uses no command. */
  lemma PlainStepFrame(s: State, c: char)
    requires Quiet(s) && PlainChar(c)
    ensures var r := HandleCharacter(s, c).state;
      r.logMap == s.logMap && r.usedCustomCommands == s.usedCustomCommands
  {
    BraceCheckFrame(s, c);
  }

  /** Plain text leaves a quiet state quiet, and the output mode, the math
      mode, the math-environment flag and the environment stack alone. */
  lemma {:induction false} PlainRunQuiet(s: State, text: string)
    requires Quiet(s)
    requires forall i :: 0 <= i < |text| ==> PlainChar(text[i])
    ensures Quiet(Run(s, text)) && Run(s, text).html == s.html
    ensures Run(s, text).mode == s.mode && Run(s, text).envMode == s.envMode
    ensures Run(s, text).environmentStack == s.environmentStack
    decreases |text|
  {
    if text != [] {
      var init := text[..|text| - 1];
      PlainRunQuiet(s, init);
      PlainStep(Run(s, init), text[|text| - 1]);
    }
  }

  /** Appending the escaped form of one more character extends the escaped
      text by that character. */
  lemma AppendEscaped(html: bool, base: string, init: string, c: char)
    ensures (base + Escaped(html, init)) + Escaped(html, [c]) == base + Escaped(html, init + [c])
  {
    EscapedConcat(html, init, [c]);
  }

  /** Plain text is copied to the output, escaped as a whole when the output is
      HTML. */
  lemma {:induction false} PlainRun(s: State, text: string)
    requires Quiet(s)
    requires forall i :: 0 <= i < |text| ==> PlainChar(text[i])
    ensures Run(s, text).currentString == s.currentString + Escaped(s.html, text)
    decreases |text|
  {
    if text == [] {
      assert Escaped(s.html, text) == [] by {
        if s.html {
          assert EscapeHtml(text) == EscapeEach(text);
        }
      }
    } else {
      var init := text[..|text| - 1];
      var c := text[|text| - 1];
      assert text == init + [c];
      PlainRun(s, init);
      PlainRunQuiet(s, init);
      RunSnoc(s, init, c);
      PlainStep(Run(s, init), c);
      AppendEscaped(s.html, s.currentString, init, c);
    }
  }

  /** Plain text logs nothing and uses no command. */
  lemma {:induction false} PlainRunFrame(s: State, text: string)
    requires Quiet(s)
    requires forall i :: 0 <= i < |text| ==> PlainChar(text[i])
    ensures Run(s, text).logMap == s.logMap
    ensures Run(s, text).usedCustomCommands == s.usedCustomCommands
    decreases |text|
  {
    if text != [] {
      var init := text[..|text| - 1];
      PlainRunFrame(s, init);
      PlainRunQuiet(s, init);
      PlainStepFrame(Run(s, init), text[|text| - 1]);
    }
  }

  /** The scan of text with no `$`, `\` or `%`: the text and the sentinel
      space, as they are, with nothing logged and no command used. */
  lemma PlainScan(latex: string)
    requires forall i :: 0 <= i < |latex| ==> PlainChar(latex[i])
    ensures var s := Scan(latex);
      s.currentString == latex + " " && s.logMap == map[] && s.usedCustomCommands == {} && !s.html
  {
    var original := latex + " ";
    assert forall i :: 0 <= i < |original| ==> PlainChar(original[i]) by {
      forall i | 0 <= i < |original| ensures PlainChar(original[i]) {
        if i < |latex| {
          assert original[i] == latex[i];
        }
      }
    }
    assert '\\' !in original;
    ContainsFirstChar(original, "\\begin{enumerate}");
    ContainsFirstChar(original, "\\begin{itemize}");
    var s0 := InitialFor(original);
    PlainRun(s0, original);
    PlainRunQuiet(s0, original);
    PlainRunFrame(s0, original);
  }

  /** Text with no `$`, `\` or `%` is transformed into itself: the trim is
      defined, nothing is logged, no preamble and no HTML note are added. */
  lemma PlainTextUnchanged(latex: string)
    requires forall i :: 0 <= i < |latex| ==> PlainChar(latex[i])
    ensures TrimDefined(latex)
    ensures Transform(latex) == TransformResult(latex, [], true, "", map[], "")
  {
    PlainScan(latex);
    var out := Scan(latex).currentString;
    assert out[..|out| - 1] == latex;
    NothingUsed();
  }

  // ---------------------------------------------------------------------
  // Inline math

  /** Scanning two characters is two steps. */
  lemma RunPair(s: State, a: char, b: char)
    ensures Run(s, [a, b]) == HandleCharacter(HandleCharacter(s, a).state, b).state
  {
    RunSnoc(s, [], a);
    assert [] + [a] == [a];
    RunSnoc(s, [a], b);
    assert [a] + [b] == [a, b];
  }

  /** The math delimiter a `$` followed by something other than `$` or `\`
      emits, leaving nothing pending: `\(` when it opens inline math, `\)`
      when it closes it. */
  function DollarOpenClose(s: State): State {
    var s0 := s.(prevToken := Token(NoToken, ""));
    if s.mode == NotOpen then
      Log(AddToOutputString(SetMathMode(s0, Inline), "\\("), "Replaced $...$ with \\(...\\)")
    else
      AddToOutputString(SetMathMode(s0, NotOpen), "\\)")
  }

  /** After `$` outside block math a plain character is handled as if the
      delimiter had been emitted first and nothing were pending. */
  lemma DollarStep(s: State, c: char)
    requires s.prevToken == Token(Dollar, "") && s.mode != Block && PlainChar(c)
    ensures HandleCharacter(s, c).state == HandleCharacter(DollarOpenClose(s), c).state
  {
  }

  /** In a quiet state outside block math, `$` and a plain character open
      inline math (from no math) or close it (from inline math): `\(` or `\)`
      is emitted, then the character itself, and nothing is left pending. */
  lemma DollarThenPlain(s: State, c: char)
    requires Quiet(s) && s.mode != Block && PlainChar(c)
    ensures var r := Run(s, ['$', c]);
      && Quiet(r) && r.html == s.html && r.envMode == s.envMode
      && r.environmentStack == s.environmentStack
      && r.mode == (if s.mode == NotOpen then Inline else NotOpen)
      && r.currentString == s.currentString + (if s.mode == NotOpen then "\\(" else "\\)") + Escaped(s.html, [c])
  {
    RunPair(s, '$', c);
    var s1 := s.(prevToken := Token(Dollar, ""));
    assert HandleCharacter(s, '$').state == s1;
    DollarStep(s1, c);
    EscapedPlain(s.html, "\\(");
    EscapedPlain(s.html, "\\)");
    PlainStep(DollarOpenClose(s1), c);
  }

  /** The output pieces of `$text$` followed by `c` join into the escaped text
      between `\(` and `\)`. */
  lemma InlinePieces(html: bool, base: string, first: char, rest: string, c: char)
    ensures base + "\\(" + Escaped(html, [first]) + Escaped(html, rest) + "\\)" + Escaped(html, [c])
         == base + "\\(" + Escaped(html, [first] + rest) + "\\)" + Escaped(html, [c])
  {
    EscapedConcat(html, [first], rest);
  }

  /** Outside math, `$text$` around plain text becomes `\(text\)` with the
      text kept (escaped when the output is HTML), and after the character
      that follows the closing `$` math mode is closed and nothing is pending. */
  lemma InlineMath(s: State, text: string, c: char)
    requires Quiet(s) && s.mode == NotOpen
    requires text != [] && forall i :: 0 <= i < |text| ==> PlainChar(text[i])
    requires PlainChar(c)
    ensures var r := Run(s, "$" + text + "$" + [c]);
      && r.currentString == s.currentString + "\\(" + Escaped(s.html, text) + "\\)" + Escaped(s.html, [c])
      && r.mode == NotOpen && Quiet(r)
  {
    var first := text[0];
    var rest := text[1..];
    assert text == [first] + rest;
    assert "$" + text + "$" + [c] == (['$', first] + rest) + ['$', c];
    assert forall i :: 0 <= i < |rest| ==> PlainChar(rest[i]) by {
      forall i | 0 <= i < |rest| ensures PlainChar(rest[i]) {
        assert rest[i] == text[i + 1];
      }
    }
    DollarThenPlain(s, first);
    var a := Run(s, ['$', first]);
    PlainRun(a, rest);
    PlainRunQuiet(a, rest);
    var b := Run(a, rest);
    DollarThenPlain(b, c);
    RunConcat(s, ['$', first], rest);
    RunConcat(s, ['$', first] + rest, ['$', c]);
    InlinePieces(s.html, s.currentString, first, rest, c);
  }

  // ---------------------------------------------------------------------
  // The final trim

  /** The scan of a text is the scan of its characters followed by the
      sentinel, so what they produced is a prefix of the final buffer. */
  lemma ScanExtendsInput(latex: string)
    ensures BeforeSentinel(latex).currentString <= Scan(latex).currentString
  {
    RunConcat(InitialFor(latex + " "), latex, " ");
    var before := BeforeSentinel(latex);
    assert Run(before, " ") == HandleCharacter(before, ' ').state by {
      assert " "[..0] == [];
    }
  }

  /** As written, the trim cuts a character of the input itself when the input
      ends in a comment: `ab%` becomes `a`. */
  lemma TrimDropsInput(text: string)
    requires text != []
    requires forall i :: 0 <= i < |text| ==> PlainChar(text[i])
    ensures TrimDefined(text + "%")
    ensures Transform(text + "%").transformed == text[..|text| - 1]
  {
    CommentAtEnd(text);
    NothingUsed();
  }

  /** The instance `ab%`: as written it becomes `a`, corrected `ab`. */
  lemma TrimExample()
    ensures TrimDefined("ab%") && Transform("ab%").transformed == "a"
    ensures TransformFixed("ab%").transformed == "ab"
  {
    var text := "ab";
    assert text + "%" == "ab%";
    TrimDropsInput(text);
    FixedTrimKeepsComment(text);
  }

  /** As written, the input `%` leaves an empty buffer, on which the trim is
      not defined. */
  lemma TrimUndefinedOnComment()
    ensures !TrimDefined("%")
  {
    assert [] + "%" == "%";
    CommentAtEnd([]);
  }

  /** The corrected trim keeps text that ends in a comment: `ab%` becomes
      `ab`, and `%` the empty text. */
  lemma FixedTrimKeepsComment(text: string)
    requires forall i :: 0 <= i < |text| ==> PlainChar(text[i])
    ensures TransformFixed(text + "%").transformed == text
  {
    CommentAtEnd(text);
    NothingUsed();
  }

  /** From a quiet state, plain text and then `%` leave the text in the buffer
      and a comment pending. */
  lemma PlainThenComment(s: State, text: string)
    requires Quiet(s)
    requires forall i :: 0 <= i < |text| ==> PlainChar(text[i])
    ensures var r := Run(s, text + "%");
      r.prevToken.ttype == Comment && r.currentString == s.currentString + Escaped(s.html, text)
    ensures Run(s, text + "%").usedCustomCommands == s.usedCustomCommands
  {
    PlainRun(s, text);
    PlainRunQuiet(s, text);
    PlainRunFrame(s, text);
    var s1 := Run(s, text);
    RunConcat(s, text, "%");
    assert Run(s1, "%") == HandleCharacter(s1, '%').state by {
      assert "%"[..0] == [];
    }
  }

  /** A pending comment swallows the sentinel space. */
  lemma CommentSwallowsSentinel(s: State, text: string)
    requires Run(s, text).prevToken.ttype == Comment
    ensures Run(s, text + " ") == Run(s, text)
  {
    RunConcat(s, text, " ");
    CommentSkips(Run(s, text), " ");
  }

  /** A plain text followed by a comment: the buffer holds the text only, also
      before the sentinel, and nothing is used. */
  lemma CommentAtEnd(text: string)
    requires forall i :: 0 <= i < |text| ==> PlainChar(text[i])
    ensures Scan(text + "%").currentString == text
    ensures BeforeSentinel(text + "%").currentString == text
    ensures Scan(text + "%").usedCustomCommands == {}
  {
    var original := text + "%" + " ";
    assert '\\' !in original by {
      forall i | 0 <= i < |original| ensures original[i] != '\\' {
        if i < |text| {
          assert original[i] == text[i];
        }
      }
    }
    ContainsFirstChar(original, "\\begin{enumerate}");
    ContainsFirstChar(original, "\\begin{itemize}");
    var s0 := InitialFor(original);
    assert !s0.html && Quiet(s0);
    PlainThenComment(s0, text);
    CommentSwallowsSentinel(s0, text + "%");
  }

  /** The corrected trim never cuts what the input produced: the preamble and
      the buffer before the sentinel are a prefix of the result. */
  lemma FixedTrimKeepsInput(latex: string)
    ensures var s := Scan(latex);
      PreambleFor(s.usedCustomCommands) + BeforeSentinel(latex).currentString
        <= TransformFixed(latex).transformed
  {
    ScanExtendsInput(latex);
  }

  /** Where the sentinel reached the output the two trims agree. */
  lemma FixedTrimAgrees(latex: string)
    requires SentinelEmitted(latex)
    ensures TrimDefined(latex) && TransformFixed(latex) == Transform(latex)
  {
  }
}
