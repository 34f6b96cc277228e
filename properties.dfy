/** What the scanner promises, stated on the handler functions: the math-mode
    transitions of `$` and of the backslash delimiters with their errors, line
    breaks and escaped characters, argument replacements and their closing
    brace or bracket, pass-through commands, environments, comments, and the
    invariants every step keeps (the output only grows, the pending token stays
    well formed). */
module LatexProperties {
  import opened Wrappers
  import opened Text
  import opened Commands
  import opened Environs
  import opened TS = TransformState
  import opened LatexSpec

  // ---------------------------------------------------------------------
  // Invariants of one step

  /** With nothing or a comment pending, a character never fails, never
      re-dispatches, and leaves the math mode, the environment flag, the
      environment stack and the used commands alone. */
  lemma IdleFrame(s: State, c: char)
    requires Rank(s.prevToken.ttype) == 0
    ensures var r := HandleIdle(s, c);
      && r.outcome == Pass
      && r.state.mode == s.mode && r.state.envMode == s.envMode
      && r.state.environmentStack == s.environmentStack
      && r.state.usedCustomCommands == s.usedCustomCommands
  {
    BraceCheckFrame(s, c);
  }

  // ---------------------------------------------------------------------
  // Dollar signs

  /** `$$` opens block math from no math, closes block math, and is an error
      while inline math is open (the pending `$` is consumed either way). */
  lemma DoubleDollar(s: State)
    ensures var r := HandlePrevDollarChar(s, '$');
      && r.state.prevToken == Token(NoToken, "")
      && (s.mode == NotOpen ==>
            r.outcome == Pass && r.state.mode == Block && r.state.currentString == s.currentString + "\\[")
      && (s.mode == Block ==>
            r.outcome == Pass && r.state.mode == NotOpen && r.state.currentString == s.currentString + "\\]")
      && (s.mode == Inline ==>
            r == Step(s.(prevToken := Token(NoToken, "")), Fail("math error: $$ after open $")))
  {
    EscapedPlain(s.html, "\\[");
    EscapedPlain(s.html, "\\]");
  }

  /** A `$` followed by another character opens inline math from no math and
      closes inline math, emitting `\(` or `\)` before whatever that character
      produces; while block math is open it is an error. */
  lemma SingleDollar(s: State, c: char)
    requires c != '$'
    ensures var r := HandlePrevDollarChar(s, c);
      && (s.mode == Block ==>
            r == Step(s.(prevToken := Token(NoToken, "")), Fail("math error: $ after open $$")))
      && (s.mode == NotOpen ==>
            r.outcome == Pass && r.state.mode == Inline && s.currentString + "\\(" <= r.state.currentString)
      && (s.mode == Inline ==>
            r.outcome == Pass && r.state.mode == NotOpen && s.currentString + "\\)" <= r.state.currentString)
  {
    EscapedPlain(s.html, "\\(");
    EscapedPlain(s.html, "\\)");
    var s1 := SetPrevToken(s, Token(NoToken, ""));
    if s1.mode != Block && c != '\\' {
      var s2 :=
        if s1.mode == NotOpen then
          Log(AddToOutputString(SetMathMode(s1, Inline), "\\("), "Replaced $...$ with \\(...\\)")
        else
          AddToOutputString(SetMathMode(s1, NotOpen), "\\)");
      IdleFrame(CheckForComment(s2, c), c);
    }
  }

  // ---------------------------------------------------------------------
  // Backslash sequences

  /** The backslash openings: an error with no change inside math mode,
      otherwise the mode is set and the delimiter emitted. */
  lemma BackslashOpenings(s: State, c: char)
    requires c == '(' || c == '['
    ensures var r := HandlePrevBackslash(s, c);
      && (s.mode != NotOpen ==>
            r == Step(s, Fail("unexpected math mode opening \\" + [c] + " in math mode")))
      && (s.mode == NotOpen ==>
            r == Step(s.(mode := if c == '(' then Inline else Block,
                         prevToken := Token(NoToken, ""),
                         currentString := s.currentString + "\\" + [c]), Pass))
  {
    EscapedPlain(s.html, "\\" + [c]);
  }

  /** The backslash closings: an error with no change outside math mode or
      when the closing does not match the open mode, otherwise math mode ends
      and the delimiter is emitted. */
  lemma BackslashClosings(s: State, c: char)
    requires c == ')' || c == ']'
    ensures var r := HandlePrevBackslash(s, c);
      && (s.mode == NotOpen ==> r == Step(s, Fail("unexpected closure \\" + [c] + " of math mode")))
      && (c == ')' && s.mode == Block ==> r == Step(s, Fail("mismatched closure of math mode: \\)")))
      && (c == ']' && s.mode == Inline ==> r == Step(s, Fail("mismatched closure of math mode: \\]")))
      && (s.mode != NotOpen && (c == ')') == (s.mode == Inline) ==>
            r == Step(s.(mode := NotOpen,
                         prevToken := Token(NoToken, ""),
                         currentString := s.currentString + "\\" + [c]), Pass))
  {
    EscapedPlain(s.html, "\\" + [c]);
  }

  /** `\\` is wrapped in `\( \)` outside any math, and kept otherwise. */
  lemma BackslashLineBreak(s: State)
    ensures var r := HandlePrevBackslash(s, '\\');
      && r.outcome == Pass
      && r.state.prevToken == Token(NoToken, "")
      && r.state.currentString == s.currentString +
           (if s.mode == NotOpen && s.envMode == NoMathEnv then "\\(\\\\ \\)" else "\\\\")
      && r.state.mode == s.mode && r.state.envMode == s.envMode
  {
    EscapedPlain(s.html, "\\(\\\\ \\)");
    EscapedPlain(s.html, "\\\\");
  }

  /** `\$`, `\{`, `\}` and `\%` are emitted as they are and change nothing else:
      no brace is counted, no math mode entered, no comment started. */
  lemma EscapedCharacters(s: State, c: char)
    requires c == '$' || c == '{' || c == '}' || c == '%'
    ensures HandlePrevBackslash(s, c) ==
      Step(s.(prevToken := Token(NoToken, ""), currentString := s.currentString + "\\" + [c]), Pass)
  {
    EscapedPlain(s.html, "\\" + [c]);
  }

  // ---------------------------------------------------------------------
  // Commands

  /** What a replacement's text adds to the output, escaped or not. */
  function EmittedText(s: State, escape: bool, text: string): string {
    if escape then Escaped(s.html, text) else text
  }

  /** A brace-argument command must be followed by `{`, and otherwise fails with
      the state untouched. The `{` emits the left text, pushes an action whose
      depth is the brace count before the `{`, and is itself swallowed. */
  lemma BraceArgument(s: State, c: char, r: CommandReplacement)
    requires s.prevToken.ttype == BackslashOngoing && !IsLetter(c)
    requires s.prevToken.tokenInfo !in GetCustomCommands()
    requires GetCommandReplacement(s, s.prevToken.tokenInfo) == Some(r) && r.argCommand
    ensures var step := HandlePrevBackslashOngoing(s, c);
      && (c != '{' ==> step == Step(s, Fail("expected { for command " + s.prevToken.tokenInfo)))
      && (c == '{' ==>
            && step.outcome == Pass
            && step.state.currentString == s.currentString + EmittedText(s, r.escapeRepl, r.leftRepl)
            && step.state.braceReplacement ==
                 s.braceReplacement + [BraceClosingData(r.escapeRepl, s.openBraces, r.rightRepl)]
            && step.state.openBraces == s.openBraces + 1
            && step.state.prevToken == Token(NoToken, ""))
  {
    ReplacedNames(s, s.prevToken.tokenInfo);
  }

  /** A bracket-argument command must be followed by `[`, and otherwise fails
      with the state untouched. The `[` emits the left text, sets the pending
      bracket action, and is itself swallowed. */
  lemma BracketArgument(s: State, c: char, r: CommandReplacement)
    requires s.prevToken.ttype == BackslashOngoing && !IsLetter(c)
    requires s.prevToken.tokenInfo !in GetCustomCommands()
    requires GetCommandReplacement(s, s.prevToken.tokenInfo) == Some(r) && r.optArgCommand
    ensures var step := HandlePrevBackslashOngoing(s, c);
      && (c != '[' ==> step == Step(s, Fail("expected [ for command " + s.prevToken.tokenInfo)))
      && (c == '[' ==>
            && step.outcome == Pass
            && step.state.currentString == s.currentString + EmittedText(s, r.escapeRepl, r.leftRepl)
            && step.state.bracketReplacement == Some(BracketClosingData(r.escapeRepl, r.rightRepl))
            && step.state.braceReplacement == s.braceReplacement
            && step.state.openBraces == s.openBraces
            && step.state.prevToken == Token(NoToken, ""))
  {
    ReplacedNames(s, s.prevToken.tokenInfo);
  }

  /** The left texts of the zero-argument replacements: `\mathbb{R}` and the
      list-item markers. None of them, without its first character, is `begin`
      or `end`. */
  lemma ZeroArgumentTexts(s: State, command: string)
    ensures var repl := GetCommandReplacement(s, command);
      repl.Some? && !repl.value.argCommand && !repl.value.optArgCommand ==>
        repl.value.leftRepl in
          {"\\mathbb{R}", "<li>", "<li type=\"a\">)", "<li type=\"i\">)", "<li type=\"A\">)"}
  {
    CommandCatalogShape();
    EnvironmentCatalogShape();
  }

  /** A zero-argument replacement logs itself, emits its left text, and the
      character that ended the name is handled with nothing pending. */
  lemma ZeroArgumentReplacement(s: State, c: char, r: CommandReplacement)
    requires s.prevToken.ttype == BackslashOngoing && !IsLetter(c)
    requires s.prevToken.tokenInfo !in GetCustomCommands()
    requires GetCommandReplacement(s, s.prevToken.tokenInfo) == Some(r)
    requires !r.argCommand && !r.optArgCommand
    ensures var name := s.prevToken.tokenInfo;
      HandlePrevBackslashOngoing(s, c) ==
        HandleIdle(Emit(Log(s, ReplacementLogMessage(name, r)), r.escapeRepl, r.leftRepl)
                     .(prevToken := Token(NoToken, "")), c)
  {
    ZeroArgumentTexts(s, s.prevToken.tokenInfo);
    assert r.leftRepl[1..] != "begin" && r.leftRepl[1..] != "end";
  }

  /** With nothing pending, a `}` that brings the counter back to the depth of
      the latest brace action emits that action's text instead of itself and
      pops the action; any other `}` is emitted. */
  lemma ClosingBrace(s: State)
    requires s.prevToken == Token(NoToken, "")
    ensures var fires := AnyClosingBraceAction(s) && GetClosingBraceAction(s).depth == s.openBraces - 1;
      && (fires ==>
            var a := GetClosingBraceAction(s);
            HandlePrevNoTokenChar(s, '}') == Step(s.(openBraces := s.openBraces - 1,
              currentString := s.currentString + EmittedText(s, a.escape, a.replacement),
              braceReplacement := s.braceReplacement[..|s.braceReplacement| - 1]), Pass))
      && (!fires ==>
            HandlePrevNoTokenChar(s, '}') == Step(s.(openBraces := s.openBraces - 1,
              currentString := s.currentString + Escaped(s.html, "}")), Pass))
  {
    var s1 := DecrBraces(s);
    if AnyClosingBraceAction(s) && GetClosingBraceAction(s).depth == s.openBraces - 1 {
      var a := GetClosingBraceAction(s);
      assert BraceCheck(s, '}') == (PopClosingBraceAction(Emit(s1, a.escape, a.replacement)), true);
    } else {
      assert BraceCheck(s, '}') == (s1, false);
    }
  }

  /** With nothing pending, a `]` emits the pending bracket action's text instead
      of itself and clears the action; without one it is emitted. */
  lemma ClosingBracket(s: State)
    requires s.prevToken == Token(NoToken, "")
    ensures s.bracketReplacement.Some? ==>
      var b := s.bracketReplacement.value;
      HandlePrevNoTokenChar(s, ']') == Step(s.(bracketReplacement := None,
        currentString := s.currentString + EmittedText(s, b.escape, b.replacement)), Pass)
    ensures s.bracketReplacement.None? ==>
      HandlePrevNoTokenChar(s, ']') == Step(s.(currentString := s.currentString + Escaped(s.html, "]")), Pass)
  {
  }

  /** A custom command is recorded as used, emitted as `\name`, and the
      character that ended its name is handled with nothing pending. */
  lemma CustomCommandPassThrough(s: State, c: char)
    requires s.prevToken.ttype == BackslashOngoing && !IsLetter(c)
    requires s.prevToken.tokenInfo in GetCustomCommands()
    ensures var name := s.prevToken.tokenInfo;
      HandlePrevBackslashOngoing(s, c) ==
        HandleIdle(s.(usedCustomCommands := s.usedCustomCommands + {name},
                      currentString := s.currentString + Escaped(s.html, "\\" + name),
                      prevToken := Token(NoToken, "")), c)
  {
    var name := s.prevToken.tokenInfo;
    assert name in {"abs", "norm", "energynorm", "normone", "normtwo", "norminf"};
    assert name != "begin" && name != "end";
  }

  /** A command with neither a definition nor a replacement is emitted as
      `\name`, and the character that ended its name is handled with nothing
      pending. */
  lemma UnknownCommandPassThrough(s: State, c: char)
    requires s.prevToken.ttype == BackslashOngoing && !IsLetter(c)
    requires s.prevToken.tokenInfo !in GetCustomCommands()
    requires GetCommandReplacement(s, s.prevToken.tokenInfo) == None
    requires s.prevToken.tokenInfo != "begin" && s.prevToken.tokenInfo != "end"
    ensures var name := s.prevToken.tokenInfo;
      HandlePrevBackslashOngoing(s, c) ==
        HandleIdle(s.(currentString := s.currentString + Escaped(s.html, "\\" + name),
                      prevToken := Token(NoToken, "")), c)
  {
  }

  /** `\begin` and `\end` are never emitted: once the name ends, the
      character that ended it goes through the brace check and an environment
      name starts to be collected, empty, for an opening or a closing. */
  lemma BeginEndTokens(s: State, c: char)
    requires s.prevToken.ttype == BackslashOngoing && !IsLetter(c)
    requires s.prevToken.tokenInfo == "begin" || s.prevToken.tokenInfo == "end"
    ensures var r := HandlePrevBackslashOngoing(s, c);
      var s1 := BraceCheck(s, c).0;
      && r.outcome == Pass
      && r.state.prevToken == Token(if s.prevToken.tokenInfo == "begin" then EnvironOpen else EnvironClose, "")
      && r.state.currentString == s1.currentString
      && r.state.environmentStack == s.environmentStack
      && r.state.mode == s.mode && r.state.envMode == s.envMode
      && r.state.logMap == s.logMap && r.state.usedCustomCommands == s.usedCustomCommands
  {
    BraceCheckFrame(s, c);
    ReplacedNames(s, s.prevToken.tokenInfo);
  }

  // ---------------------------------------------------------------------
  // Environments

  /** `\begin{E}` for a math environment without a catalog entry: pushed, and
      when it is the outermost math environment and no math mode is open it is
      wrapped: `\(\begin{E}` and the math-environment flag; otherwise only
      `\begin{E}` is emitted. The `}` first goes through the brace check. */
  lemma MathEnvironmentOpens(s: State)
    requires s.prevToken.ttype == EnvironOpen
    requires s.prevToken.tokenInfo in GetKnownMathEnvirons()
    ensures var e := s.prevToken.tokenInfo;
      var s1 := BraceCheck(s, '}').0;
      var step := HandlePrevEnvironOpen(s, '}');
      && step.outcome == Pass
      && step.state.environmentStack == s.environmentStack + [e]
      && step.state.prevToken == Token(NoToken, "")
      && (CountMathEnvs(s) == 0 && s.mode == NotOpen ==>
            && step.state.currentString == s1.currentString + Escaped(s.html, "\\(\\begin{" + e + "}")
            && step.state.envMode == MathEnv)
      && (CountMathEnvs(s) != 0 || s.mode != NotOpen ==>
            && step.state.currentString == s1.currentString + Escaped(s.html, "\\begin{" + e + "}")
            && step.state.envMode == s.envMode)
  {
    var e := s.prevToken.tokenInfo;
    BraceCheckFrame(s, '}');
    ReplacedAreNotMath();
    assert e !in GetEnvReplacements();
    CountInConcat(s.environmentStack, [e], GetKnownMathEnvirons());
    assert CountIn([e], GetKnownMathEnvirons()) == 1;
  }

  /** `\end{E}` for the innermost environment E, a math environment without a
      catalog entry: popped, and when no math environment remains and no math
      mode is open `\end{E}\)` ends the math environment; otherwise only
      `\end{E}` is emitted. */
  lemma MathEnvironmentCloses(s: State)
    requires s.prevToken.ttype == EnvironClose
    requires s.prevToken.tokenInfo in GetKnownMathEnvirons()
    requires GetCurrEnv(s) == Some(s.prevToken.tokenInfo)
    ensures var e := s.prevToken.tokenInfo;
      var s1 := BraceCheck(s, '}').0;
      var step := HandlePrevEnvironClose(s, '}');
      && step.outcome == Pass
      && step.state.environmentStack == s.environmentStack[..|s.environmentStack| - 1]
      && step.state.prevToken == Token(NoToken, "")
      && (CountMathEnvs(s) == 1 && s.mode == NotOpen ==>
            && step.state.currentString == s1.currentString + Escaped(s.html, "\\end{" + e + "}\\)")
            && step.state.envMode == NoMathEnv)
      && (CountMathEnvs(s) != 1 || s.mode != NotOpen ==>
            && step.state.currentString == s1.currentString + Escaped(s.html, "\\end{" + e + "}")
            && step.state.envMode == s.envMode)
  {
    var e := s.prevToken.tokenInfo;
    BraceCheckFrame(s, '}');
    ReplacedAreNotMath();
    assert e !in GetEnvReplacements();
    var init := s.environmentStack[..|s.environmentStack| - 1];
    assert s.environmentStack == init + [e];
    CountInConcat(init, [e], GetKnownMathEnvirons());
    assert CountIn([e], GetKnownMathEnvirons()) == 1;
  }

  /** A catalog environment emits only its left text at `\begin` and its right
      text at the matching `\end`, is pushed and popped, and never touches the
      math-environment flag. */
  lemma ReplacedEnvironment(s: State)
    requires CarriesInfo(s.prevToken.ttype)
    requires s.prevToken.tokenInfo in GetEnvReplacements()
    ensures var e := s.prevToken.tokenInfo;
      var s1 := BraceCheck(s, '}').0;
      var open := HandlePrevEnvironOpen(s, '}');
      && open.outcome == Pass
      && open.state.currentString == s1.currentString + GetEnvReplacements()[e].leftRepl
      && open.state.environmentStack == s.environmentStack + [e]
      && open.state.envMode == s.envMode
    ensures var e := s.prevToken.tokenInfo;
      var s1 := BraceCheck(s, '}').0;
      var close := HandlePrevEnvironClose(s, '}');
      GetCurrEnv(s) == Some(e) ==>
        && close.outcome == Pass
        && close.state.currentString == s1.currentString + GetEnvReplacements()[e].rightRepl
        && close.state.environmentStack == s.environmentStack[..|s.environmentStack| - 1]
        && close.state.envMode == s.envMode
  {
    BraceCheckFrame(s, '}');
    ReplacedAreNotMath();
    EnvironmentCatalogShape();
  }

  /** An environment that is neither in the catalog nor a math environment is
      emitted as it is: `\begin{E}` pushes it and `\end{E}` for the innermost
      one pops it, and neither touches the math mode or the math-environment
      flag. */
  lemma UnknownEnvironment(s: State)
    requires CarriesInfo(s.prevToken.ttype)
    requires s.prevToken.tokenInfo !in GetEnvReplacements()
    requires s.prevToken.tokenInfo !in GetKnownMathEnvirons()
    ensures var e := s.prevToken.tokenInfo;
      var s1 := BraceCheck(s, '}').0;
      var open := HandlePrevEnvironOpen(s, '}');
      && open.outcome == Pass
      && open.state.currentString == s1.currentString + Escaped(s.html, "\\begin{" + e + "}")
      && open.state.environmentStack == s.environmentStack + [e]
      && open.state.prevToken == Token(NoToken, "")
      && open.state.mode == s.mode && open.state.envMode == s.envMode
      && open.state.logMap == s.logMap && open.state.usedCustomCommands == s.usedCustomCommands
    ensures var e := s.prevToken.tokenInfo;
      var s1 := BraceCheck(s, '}').0;
      var close := HandlePrevEnvironClose(s, '}');
      GetCurrEnv(s) == Some(e) ==>
        && close.outcome == Pass
        && close.state.currentString == s1.currentString + Escaped(s.html, "\\end{" + e + "}")
        && close.state.environmentStack == s.environmentStack[..|s.environmentStack| - 1]
        && close.state.prevToken == Token(NoToken, "")
        && close.state.mode == s.mode && close.state.envMode == s.envMode
        && close.state.logMap == s.logMap && close.state.usedCustomCommands == s.usedCustomCommands
  {
    BraceCheckFrame(s, '}');
  }

  /** Closing an environment that is not the innermost open one is an error;
      the state is the one after the brace check, with the name still pending. */
  lemma EnvironmentMismatch(s: State)
    requires s.prevToken.ttype == EnvironClose
    requires GetCurrEnv(s) != Some(s.prevToken.tokenInfo)
    ensures var step := HandlePrevEnvironClose(s, '}');
      step.outcome.Fail? && step.state == BraceCheck(s, '}').0
  {
    BraceCheckFrame(s, '}');
  }
}
