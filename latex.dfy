/** The scanner of the transformer as the source writes it: one method per
    handler, each working on the mutable `TransformationInfo` in place and
    returning the handler's error, and `TransformLatex`, which feeds every
    character of the input and a trailing space to `HandleCharacter`, drops
    the errors, and assembles the result. Each method is proved to do what the
    matching function of `LatexSpec` says. */
module Latex {
  import opened Wrappers
  import opened Environs
  import opened TS = TransformState
  import opened TransformInfo
  import LS = LatexSpec
  import Preamble

  method BraceCheck(info: TransformationInfo, c: char) returns (action: bool)
    modifies info
    ensures (info.Abs(), action) == LS.BraceCheck(old(info.Abs()), c)
  {
    if c == '{' || c == '}' {
      if c == '{' {
        info.IncrBraces();
      } else if c == '}' {
        info.DecrBraces();
      }
      if info.AnyClosingBraceAction() {
        var closing := info.GetClosingBraceAction();
        if closing.depth == info.GetOpenBraces() {
          if closing.escape {
            info.AddToOutputString(closing.replacement);
          } else {
            info.AddRawToOutputString(closing.replacement);
          }
          info.PopClosingBraceAction();
          return true;
        }
      }
    } else if c == ']' {
      var repl := info.ExtractBracketReplacement();
      if repl.Some? {
        if repl.value.escape {
          info.AddToOutputString(repl.value.replacement);
        } else {
          info.AddRawToOutputString(repl.value.replacement);
        }
        return true;
      }
    }
    return false;
  }

  method CheckForComment(info: TransformationInfo, c: char)
    modifies info
    ensures info.Abs() == LS.CheckForComment(old(info.Abs()), c)
  {
    if c == '%' {
      info.Log("Removed comment");
      info.SetPrevToken(Token(Comment, ""));
    }
  }

  method HandleCharacter(c: char, info: TransformationInfo) returns (err: Outcome)
    modifies info
    decreases LS.Rank(info.prevToken.ttype), 2
    ensures LS.HandleCharacter(old(info.Abs()), c) == LS.Step(info.Abs(), err)
  {
    match info.GetTokenType()
    case Dollar =>
      err := HandlePrevDollarChar(c, info);
    case NoToken =>
      err := HandlePrevNoTokenChar(c, info);
    case Backslash =>
      err := HandlePrevBackslash(c, info);
    case Comment =>
      if c == '\n' {
        info.SetPrevToken(Token(NoToken, ""));
      }
      err := Pass;
    case BackslashOngoing =>
      err := HandlePrevBackslashOngoing(c, info);
    case EnvironOpen =>
      err := HandlePrevEnvironOpen(c, info);
    case EnvironClose =>
      err := HandlePrevEnvironClose(c, info);
  }

  method HandlePrevDollarChar(c: char, info: TransformationInfo) returns (err: Outcome)
    modifies info
    decreases 1, 1
    ensures LS.HandlePrevDollarChar(old(info.Abs()), c) == LS.Step(info.Abs(), err)
  {
    info.SetPrevToken(Token(NoToken, ""));
    if c == '$' {
      match info.GetMathMode() {
        case NotOpen =>
          info.SetMathMode(Block);
          info.AddToOutputString("\\[");
          info.Log("Replaced $...$ with \\[...\\]");
        case Inline =>
          return Fail("math error: $$ after open $");
        case Block =>
          info.SetMathMode(NotOpen);
          info.AddToOutputString("\\]");
      }
    } else {
      match info.GetMathMode() {
        case NotOpen =>
          info.SetMathMode(Inline);
          info.AddToOutputString("\\(");
          info.Log("Replaced $...$ with \\(...\\)");
        case Inline =>
          info.SetMathMode(NotOpen);
          info.AddToOutputString("\\)");
        case Block =>
          return Fail("math error: $ after open $$");
      }
      if c == '\\' {
        info.SetPrevToken(Token(Backslash, ""));
      } else {
        CheckForComment(info, c);
        var ignored := HandleCharacter(c, info);
      }
    }
    return Pass;
  }

  method HandlePrevNoTokenChar(c: char, info: TransformationInfo) returns (err: Outcome)
    modifies info
    ensures LS.HandlePrevNoTokenChar(old(info.Abs()), c) == LS.Step(info.Abs(), err)
  {
    if c == '$' {
      info.SetPrevToken(Token(Dollar, ""));
    } else if c == '\\' {
      info.SetPrevToken(Token(Backslash, ""));
    } else if c == '%' {
      CheckForComment(info, c);
    } else {
      var action := BraceCheck(info, c);
      if !action {
        info.AddToOutputString([c]);
      }
    }
    return Pass;
  }

  method HandlePrevBackslash(c: char, info: TransformationInfo) returns (err: Outcome)
    modifies info
    ensures LS.HandlePrevBackslash(old(info.Abs()), c) == LS.Step(info.Abs(), err)
  {
    if c == '\\' {
      if !info.IsMathModeActive() && info.GetEnv() == NoMathEnv {
        info.Log("Wrapped newline \\\\ in \\( \\)");
        info.AddToOutputString("\\(\\\\ \\)");
      } else {
        info.AddToOutputString("\\\\");
      }
      info.SetPrevToken(Token(NoToken, ""));
    } else if c == '$' || c == '{' || c == '}' || c == '%' {
      info.SetPrevToken(Token(NoToken, ""));
      info.AddToOutputString("\\" + [c]);
    } else if c == '(' || c == '[' {
      if !info.IsMathModeActive() {
        if c == '(' {
          info.SetMathMode(Inline);
        } else {
          info.SetMathMode(Block);
        }
        info.SetPrevToken(Token(NoToken, ""));
        info.AddToOutputString("\\" + [c]);
      } else {
        return Fail("unexpected math mode opening \\" + [c] + " in math mode");
      }
    } else if c == ')' || c == ']' {
      if !info.IsMathModeActive() {
        return Fail("unexpected closure \\" + [c] + " of math mode");
      } else if c == ')' {
        if info.GetMathMode() == Block {
          return Fail("mismatched closure of math mode: \\)");
        }
        info.SetMathMode(NotOpen);
        info.SetPrevToken(Token(NoToken, ""));
        info.AddToOutputString("\\" + [c]);
      } else {
        if info.GetMathMode() == Inline {
          return Fail("mismatched closure of math mode: \\]");
        }
        info.SetMathMode(NotOpen);
        info.SetPrevToken(Token(NoToken, ""));
        info.AddToOutputString("\\" + [c]);
      }
    } else if Text.IsLetter(c) {
      info.SetPrevToken(Token(BackslashOngoing, [c]));
    } else {
      info.AddToOutputString("\\" + [c]);
      info.SetPrevToken(Token(NoToken, ""));
    }
    return Pass;
  }

  /** The first half of the source's command handler: collect a letter, or
      classify the finished name and check the argument the replacement needs. */
  method HandlePrevBackslashOngoing(c: char, info: TransformationInfo) returns (err: Outcome)
    requires CarriesInfo(info.prevToken.ttype)
    modifies info
    decreases 1, 1
    ensures LS.HandlePrevBackslashOngoing(old(info.Abs()), c) == LS.Step(info.Abs(), err)
  {
    if Text.IsLetter(c) {
      info.AddTokenInfo([c]);
      return Pass;
    }
    var repl: Option<Commands.CommandReplacement> := None;
    var command := info.GetTokenInfo();
    var oldCommand := command;
    if command in info.CustomCommands() {
      info.AddCommandUsage(command);
    } else {
      repl := info.GetCommandReplacement(command);
      if repl.Some? {
        if repl.value.argCommand {
          if c != '{' {
            return Fail("expected { for command " + command);
          }
        } else if repl.value.optArgCommand {
          if c != '[' {
            return Fail("expected [ for command " + command);
          }
        } else {
          command := repl.value.leftRepl[1..];
        }
      }
    }
    err := FinishCommand(c, info, command, oldCommand, repl);
  }

  /** The second half of the source's command handler: environment names,
      replacements and unknown commands. */
  method FinishCommand(c: char, info: TransformationInfo, command: string, oldCommand: string,
                       repl: Option<Commands.CommandReplacement>) returns (err: Outcome)
    modifies info
    decreases 1, 0
    ensures LS.FinishCommand(old(info.Abs()), c, command, oldCommand, repl) == LS.Step(info.Abs(), err)
  {
    if command == "begin" {
      var ignored := BraceCheck(info, c);
      info.SetPrevToken(Token(EnvironOpen, ""));
    } else if command == "end" {
      var ignored := BraceCheck(info, c);
      info.SetPrevToken(Token(EnvironClose, ""));
    } else if repl.Some? {
      var r := repl.value;
      info.Log(LS.ReplacementLogMessage(oldCommand, r));
      if r.escapeRepl {
        info.AddToOutputString(r.leftRepl);
      } else {
        info.AddRawToOutputString(r.leftRepl);
      }
      info.SetPrevToken(Token(NoToken, ""));
      if r.argCommand {
        info.PushClosingBraceAction(BraceClosingData(r.escapeRepl, info.GetOpenBraces(), r.rightRepl));
        var ignored := BraceCheck(info, c);
      } else if r.optArgCommand {
        info.SetBracketReplacement(BracketClosingData(r.escapeRepl, r.rightRepl));
        var ignored := BraceCheck(info, c);
      } else {
        err := HandleCharacter(c, info);
        return;
      }
    } else {
      info.AddToOutputString("\\" + command);
      info.SetPrevToken(Token(NoToken, ""));
      err := HandleCharacter(c, info);
      return;
    }
    return Pass;
  }

  method HandlePrevEnvironOpen(c: char, info: TransformationInfo) returns (err: Outcome)
    requires CarriesInfo(info.prevToken.ttype)
    modifies info
    ensures LS.HandlePrevEnvironOpen(old(info.Abs()), c) == LS.Step(info.Abs(), err)
  {
    LS.BraceCheckFrame(info.Abs(), c);
    var ignored := BraceCheck(info, c);
    if c == '}' {
      var environ := info.GetTokenInfo();
      info.AddEnvironment(environ);
      var repl := GetEnvRepl(environ);
      if repl.Some? {
        info.Log("Replaced environment " + environ + " with " + repl.value.leftRepl + "..." + repl.value.rightRepl);
        if repl.value.escapeRepl {
          info.AddToOutputString(repl.value.leftRepl);
        } else {
          info.AddRawToOutputString(repl.value.leftRepl);
        }
      }
      info.SetPrevToken(Token(NoToken, ""));
      var contains := info.GetKnownMathEnvirons(environ);
      var count := info.CountMathEnvs();
      if contains && count <= 1 && info.mode == NotOpen {
        if repl.None? {
          info.Log("Wrapped environment " + environ + " in \\( \\)");
          info.AddToOutputString("\\(\\begin{" + environ + "}");
        }
        info.SetEnv(MathEnv);
      } else {
        if repl.None? {
          info.AddToOutputString("\\begin{" + environ + "}");
        }
      }
    } else {
      info.AddTokenInfo([c]);
    }
    return Pass;
  }

  method HandlePrevEnvironClose(c: char, info: TransformationInfo) returns (err: Outcome)
    requires CarriesInfo(info.prevToken.ttype)
    modifies info
    ensures LS.HandlePrevEnvironClose(old(info.Abs()), c) == LS.Step(info.Abs(), err)
  {
    LS.BraceCheckFrame(info.Abs(), c);
    var ignored := BraceCheck(info, c);
    if c == '}' {
      var environ := info.GetTokenInfo();
      err := info.PopEnvironment(environ);
      if err.Fail? {
        return;
      }
      var repl := GetEnvRepl(environ);
      if repl.Some? {
        if repl.value.escapeRepl {
          info.AddToOutputString(repl.value.rightRepl);
        } else {
          info.AddRawToOutputString(repl.value.rightRepl);
        }
      }
      info.SetPrevToken(Token(NoToken, ""));
      var contains := info.GetKnownMathEnvirons(environ);
      var count := info.CountMathEnvs();
      if contains && count == 0 && info.mode == NotOpen {
        if repl.None? {
          info.AddToOutputString("\\end{" + environ + "}\\)");
        }
        info.SetEnv(NoMathEnv);
      } else {
        if repl.None? {
          info.AddToOutputString("\\end{" + environ + "}");
        }
      }
    } else {
      info.AddTokenInfo([c]);
    }
    return Pass;
  }

  /** The character loop of the whole call: feeds `input` to the handler one
      character at a time, ignoring the errors it reports. */
  method ScanInput(info: TransformationInfo, input: string)
    modifies info
    ensures info.Abs() == LS.Run(old(info.Abs()), input)
  {
    for i := 0 to |input|
      invariant info.Abs() == LS.Run(old(info.Abs()), input[..i])
    {
      assert input[..i + 1][..i] == input[..i];
      var ignored := HandleCharacter(input[i], info);
    }
    assert input[..|input|] == input;
  }

  /** The loop over the input followed by the sentinel space, reporting the
      length of the buffer before the sentinel's own step. */
  method ScanWithSentinel(info: TransformationInfo, latex: string) returns (before: nat)
    modifies info
    ensures info.Abs() == LS.Run(old(info.Abs()), latex + " ")
    ensures before == |LS.Run(old(info.Abs()), latex).currentString|
  {
    ScanInput(info, latex);
    before := |info.currentString|;
    var ignored := HandleCharacter(' ', info);
    assert (latex + " ")[..|latex|] == latex;
  }

  /** The whole call. The source's final slice panics on an empty buffer, so
      the scan must leave at least one character. */
  method TransformLatex(latex: string) returns (r: LS.TransformResult)
    requires LS.TrimDefined(latex)
    ensures r == LS.Transform(latex)
  {
    var original := latex + " ";
    var info := new TransformationInfo();
    info.SetHtmlIfNeeded(original);
    ScanInput(info, original);
    var preludeString := Preamble.CreateCustomCommandPreamble(info);
    var infoStr := "";
    if info.html {
      infoStr := LS.HtmlInfo;
    }
    r := LS.TransformResult(preludeString + info.currentString[..|info.currentString| - 1], [], true, "",
                            info.logMap, infoStr);
  }

  /** The whole call with the corrected trim: the sentinel is removed only when
      its own step emitted it. */
  method TransformLatexFixed(latex: string) returns (r: LS.TransformResult)
    ensures r == LS.TransformFixed(latex)
  {
    var original := latex + " ";
    var info := new TransformationInfo();
    info.SetHtmlIfNeeded(original);
    assert info.Abs() == LS.InitialFor(original);
    var before := ScanWithSentinel(info, latex);
    ghost var final := info.Abs();
    assert final == LS.Scan(latex);
    assert before == |LS.BeforeSentinel(latex).currentString|;
    var out := info.currentString;
    var preludeString := Preamble.CreateCustomCommandPreamble(info);
    var infoStr := "";
    if info.html {
      infoStr := LS.HtmlInfo;
    }
    var body := out;
    if |out| > before && out[|out| - 1] == ' ' {
      body := out[..|out| - 1];
    }
    assert preludeString == Commands.PreambleFor(final.usedCustomCommands);
    assert info.logMap ==
      TS.LogAll(final.logMap, Commands.IncludedMessages(Commands.PreambleCommands(final.usedCustomCommands)));
    assert info.html == final.html;
    assert out == final.currentString;
    assert body == if LS.SentinelAfter(final, before) then out[..|out| - 1] else out;
    r := LS.TransformResult(preludeString + body, [], true, "", info.logMap, infoStr);
    assert r == LS.FixedResult(final, before);
  }
}
