/** The mutable scan state of the transformer. Every method updates the fields
    in place and is proved to do to `Abs()` what the matching function of
    `TransformState` does to a state value. The catalogs the source copies into
    the record are read from `Commands` and `Environs` directly. */
module TransformInfo {
  import opened Wrappers
  import opened Text
  import opened Commands
  import opened Environs
  import opened TS = TransformState

  class TransformationInfo {
    var currentString: string
    var openBraces: int
    var mode: MathMode
    var envMode: EnvironMode
    var prevToken: Token
    var usedCustomCommands: set<string>
    var braceReplacement: seq<BraceClosingData>
    var environmentStack: seq<string>
    var bracketReplacement: Option<BracketClosingData>
    var html: bool
    var logMap: map<string, nat>

    /** The fields as one state value. */
    function Abs(): State
      reads this
    {
      State(currentString, openBraces, mode, envMode, prevToken, usedCustomCommands,
            braceReplacement, environmentStack, bracketReplacement, html, logMap)
    }

    /** The record literal `TransformLatex` starts from. */
    constructor ()
      ensures Abs() == TS.Initial()
    {
      currentString := "";
      openBraces := 0;
      mode := NotOpen;
      envMode := NoMathEnv;
      prevToken := Token(NoToken, "");
      usedCustomCommands := {};
      braceReplacement := [];
      environmentStack := [];
      bracketReplacement := None;
      html := false;
      logMap := map[];
    }

    method Log(s: string)
      modifies this
      ensures Abs() == TS.Log(old(Abs()), s)
    {
      if s !in logMap {
        logMap := logMap[s := 1];
      } else {
        logMap := logMap[s := logMap[s] + 1];
      }
    }

    method ExtractBracketReplacement() returns (res: Option<BracketClosingData>)
      modifies this
      ensures (Abs(), res) == TS.ExtractBracketReplacement(old(Abs()))
    {
      if bracketReplacement.Some? {
        res := bracketReplacement;
        bracketReplacement := None;
        return;
      }
      res := None;
    }

    method SetBracketReplacement(b: BracketClosingData)
      modifies this
      ensures Abs() == TS.SetBracketReplacement(old(Abs()), b)
    {
      bracketReplacement := Some(b);
    }

    method SetHtmlIfNeeded(original: string)
      modifies this
      ensures Abs() == TS.SetHtmlIfNeeded(old(Abs()), original)
    {
      html := Contains(original, "\\begin{enumerate}") || Contains(original, "\\begin{itemize}");
    }

    function GetEnv(): EnvironMode
      reads this
    {
      envMode
    }

    method SetEnv(env: EnvironMode)
      modifies this
      ensures Abs() == TS.SetEnv(old(Abs()), env)
    {
      envMode := env;
    }

    method AddToOutputString(text: string)
      modifies this
      ensures Abs() == TS.AddToOutputString(old(Abs()), text)
    {
      if html {
        var escaped := ReplaceAll(text, '&', "&amp;");
        escaped := ReplaceAll(escaped, '<', "&lt;");
        escaped := ReplaceAll(escaped, '>', "&gt;");
        escaped := ReplaceAll(escaped, '\n', "<br>\n");
        assert escaped == EscapeHtml(text);
        currentString := currentString + escaped;
      } else {
        currentString := currentString + text;
      }
    }

    method AddRawToOutputString(text: string)
      modifies this
      ensures Abs() == TS.AddRawToOutputString(old(Abs()), text)
    {
      currentString := currentString + text;
    }

    function AnyClosingBraceAction(): bool
      reads this
    {
      |braceReplacement| > 0
    }

    function GetClosingBraceAction(): (action: BraceClosingData)
      reads this
      requires AnyClosingBraceAction()
      ensures action == TS.GetClosingBraceAction(Abs())
    {
      braceReplacement[|braceReplacement| - 1]
    }

    method PushClosingBraceAction(action: BraceClosingData)
      modifies this
      ensures Abs() == TS.PushClosingBraceAction(old(Abs()), action)
    {
      braceReplacement := braceReplacement + [action];
    }

    method PopClosingBraceAction()
      requires AnyClosingBraceAction()
      modifies this
      ensures Abs() == TS.PopClosingBraceAction(old(Abs()))
    {
      braceReplacement := braceReplacement[..|braceReplacement| - 1];
    }

    method IncrBraces()
      modifies this
      ensures Abs() == TS.IncrBraces(old(Abs()))
    {
      openBraces := openBraces + 1;
    }

    method DecrBraces()
      modifies this
      ensures Abs() == TS.DecrBraces(old(Abs()))
    {
      openBraces := openBraces - 1;
    }

    function GetOpenBraces(): int
      reads this
    {
      openBraces
    }

    function GetKnownMathEnvirons(environ: string): bool {
      environ in Environs.GetKnownMathEnvirons()
    }

    /** Counts the open math environments with a loop over the stack. */
    method CountMathEnvs() returns (count: nat)
      ensures count == TS.CountMathEnvs(Abs())
    {
      count := 0;
      for i := 0 to |environmentStack|
        invariant count == CountIn(environmentStack[..i], Environs.GetKnownMathEnvirons())
      {
        assert environmentStack[..i + 1][..i] == environmentStack[..i];
        if GetKnownMathEnvirons(environmentStack[i]) {
          count := count + 1;
        }
      }
      assert environmentStack[..|environmentStack|] == environmentStack;
    }

    function CustomCommands(): map<string, string> {
      GetCustomCommands()
    }

    method AddCommandUsage(command: string)
      modifies this
      ensures Abs() == TS.AddCommandUsage(old(Abs()), command)
    {
      usedCustomCommands := usedCustomCommands + {command};
    }

    /** Looks a command up; for `\item` directly inside `enumerate` it counts the
      `enumerate` entries of the stack with a loop. */
    method GetCommandReplacement(command: string) returns (r: Option<CommandReplacement>)
      ensures r == TS.GetCommandReplacement(Abs(), command)
    {
      var replacements := GetCommandReplacements();
      if command in replacements {
        return Some(replacements[command]);
      }
      var env := GetCurrEnv();
      if env.None? {
        return None;
      }
      if env.value == "enumerate" && command == "item" {
        var enumerateCount := 0;
        for i := 0 to |environmentStack|
          invariant enumerateCount == CountIn(environmentStack[..i], {"enumerate"})
        {
          assert environmentStack[..i + 1][..i] == environmentStack[..i];
          if environmentStack[i] == "enumerate" {
            enumerateCount := enumerateCount + 1;
          }
        }
        assert environmentStack[..|environmentStack|] == environmentStack;
        if enumerateCount == 1 {
          return Some(CommandReplacement(false, false, false, "<li type=\"a\">)", ""));
        } else if enumerateCount == 2 {
          return Some(CommandReplacement(false, false, false, "<li type=\"i\">)", ""));
        } else {
          return Some(CommandReplacement(false, false, false, "<li type=\"A\">)", ""));
        }
      }
      r := GetEnvCommandRepl(env.value, command);
    }

    method AddEnvironment(env: string)
      modifies this
      ensures Abs() == TS.AddEnvironment(old(Abs()), env)
    {
      environmentStack := environmentStack + [env];
    }

    function GetCurrEnv(): (r: Option<string>)
      reads this
      ensures r == TS.GetCurrEnv(Abs())
    {
      if |environmentStack| == 0 then None else Some(environmentStack[|environmentStack| - 1])
    }

    method PopEnvironment(env: string) returns (err: Outcome)
      modifies this
      ensures (Abs(), err) == TS.PopEnvironment(old(Abs()), env)
    {
      if |environmentStack| == 0 {
        return Fail("unexpected environment closure: " + env);
      }
      var lastEnv := environmentStack[|environmentStack| - 1];
      if lastEnv != env {
        return Fail("unexpected environment closure: " + env + ", last open environment: " + lastEnv);
      }
      environmentStack := environmentStack[..|environmentStack| - 1];
      err := Pass;
    }

    method SetMathMode(m: MathMode)
      modifies this
      ensures Abs() == TS.SetMathMode(old(Abs()), m)
    {
      mode := m;
    }

    function GetMathMode(): MathMode
      reads this
    {
      mode
    }

    function IsMathModeActive(): bool
      reads this
    {
      mode != NotOpen
    }

    method SetPrevToken(tk: Token)
      requires WellFormedToken(tk)
      modifies this
      ensures Abs() == TS.SetPrevToken(old(Abs()), tk)
    {
      prevToken := tk;
    }

    function GetTokenInfo(): string
      reads this
      requires CarriesInfo(prevToken.ttype)
    {
      prevToken.tokenInfo
    }

    method AddTokenInfo(s: string)
      requires CarriesInfo(prevToken.ttype)
      modifies this
      ensures Abs() == TS.AddTokenInfo(old(Abs()), s)
    {
      prevToken := prevToken.(tokenInfo := prevToken.tokenInfo + s);
    }

    function GetTokenType(): TokenType
      reads this
    {
      prevToken.ttype
    }
  }
}
