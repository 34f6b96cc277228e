/** The character handlers of the transformer as functions on state values:
    each returns the state the handler leaves behind and the error it returns.
    `Run` folds `HandleCharacter` over a text and ignores the errors, as
    `TransformLatex` does; `Transform` is the whole call. */
module LatexSpec {
  import opened Wrappers
  import opened Text
  import opened Commands
  import opened Environs
  import opened TS = TransformState

  /** The state a handler leaves and the error it returns. */
  datatype Step = Step(state: State, outcome: Outcome)

  /** Termination rank of the pending token for the handler methods: those for
      `Dollar` and `BackslashOngoing` re-dispatch the same character, always
      with `NoToken` or `Comment` pending, whose handlers never re-dispatch. */
  function Rank(t: TokenType): nat {
    if t == NoToken || t == Comment then 0 else 1
  }

  /** The brace and bracket bookkeeping of one character: `{` and `}` move the
      counter, and when the counter then equals the depth of the latest brace
      action that action's closing text is emitted and the action popped; a `]`
      with a pending bracket action emits its closing text. The flag says
      whether an action fired. */
  function BraceCheck(s: State, c: char): (r: (State, bool))
    ensures s.currentString <= r.0.currentString
  {
    if c == '{' || c == '}' then
      var s1 := if c == '{' then IncrBraces(s) else DecrBraces(s);
      if AnyClosingBraceAction(s1) && GetClosingBraceAction(s1).depth == s1.openBraces then
        var action := GetClosingBraceAction(s1);
        (PopClosingBraceAction(Emit(s1, action.escape, action.replacement)), true)
      else
        (s1, false)
    else if c == ']' then
      var (s1, repl) := ExtractBracketReplacement(s);
      match repl
      case Some(r) => (Emit(s1, r.escape, r.replacement), true)
      case None => (s1, false)
    else
      (s, false)
  }

  /** The brace check touches only the output, the brace counter and the two
      kinds of closing action; an action fires only for a brace or a `]`. */
  lemma BraceCheckFrame(s: State, c: char)
    ensures var (s1, fired) := BraceCheck(s, c);
      && s1.prevToken == s.prevToken && s1.mode == s.mode && s1.envMode == s.envMode
      && s1.environmentStack == s.environmentStack && s1.usedCustomCommands == s.usedCustomCommands
      && s1.html == s.html && s1.logMap == s.logMap
      && (fired ==> c == '{' || c == '}' || c == ']')
      && (c != '{' && c != '}' && c != ']' ==> s1 == s)
  {
    if c == '{' || c == '}' {
      var s1 := if c == '{' then IncrBraces(s) else DecrBraces(s);
      if AnyClosingBraceAction(s1) {
        var action := GetClosingBraceAction(s1);
        assert Emit(s1, action.escape, action.replacement).prevToken == s.prevToken;
      }
    }
  }

  /** `%` starts a comment (and is logged). */
  function CheckForComment(s: State, c: char): State {
    if c == '%' then SetPrevToken(Log(s, "Removed comment"), Token(Comment, "")) else s
  }

  /** Dispatch on the pending token. */
  function HandleCharacter(s: State, c: char): (r: Step)
    ensures s.currentString <= r.state.currentString
  {
    match s.prevToken.ttype
    case Dollar => HandlePrevDollarChar(s, c)
    case NoToken => HandleIdle(s, c)
    case Backslash => HandlePrevBackslash(s, c)
    case Comment => HandleIdle(s, c)
    case BackslashOngoing => HandlePrevBackslashOngoing(s, c)
    case EnvironOpen => HandlePrevEnvironOpen(s, c)
    case EnvironClose => HandlePrevEnvironClose(s, c)
  }

  /** The dispatch when nothing or a comment is pending, the only tokens a
      re-dispatch can find: inside a comment everything up to the newline is
      dropped, and the newline ends the comment. */
  function HandleIdle(s: State, c: char): (r: Step)
    requires Rank(s.prevToken.ttype) == 0
    ensures s.currentString <= r.state.currentString
  {
    if s.prevToken.ttype == Comment then
      Step(if c == '\n' then SetPrevToken(s, Token(NoToken, "")) else s, Pass)
    else
      HandlePrevNoTokenChar(s, c)
  }

  /** After a `$`: a second `$` opens or closes block math, anything else opens
      or closes inline math and is then handled itself (the error of that inner
      dispatch is dropped). */
  function HandlePrevDollarChar(s: State, c: char): (r: Step)
    ensures s.currentString <= r.state.currentString
  {
    var s1 := SetPrevToken(s, Token(NoToken, ""));
    if c == '$' then
      match s1.mode
      case NotOpen =>
        Step(Log(AddToOutputString(SetMathMode(s1, Block), "\\["), "Replaced $...$ with \\[...\\]"), Pass)
      case Inline => Step(s1, Fail("math error: $$ after open $"))
      case Block => Step(AddToOutputString(SetMathMode(s1, NotOpen), "\\]"), Pass)
    else
      match s1.mode
      case Block => Step(s1, Fail("math error: $ after open $$"))
      case _ =>
        var s2 :=
          if s1.mode == NotOpen then
            Log(AddToOutputString(SetMathMode(s1, Inline), "\\("), "Replaced $...$ with \\(...\\)")
          else
            AddToOutputString(SetMathMode(s1, NotOpen), "\\)");
        if c == '\\' then
          Step(SetPrevToken(s2, Token(Backslash, "")), Pass)
        else
          var s3 := CheckForComment(s2, c);
          Step(HandleIdle(s3, c).state, Pass)
  }

  /** Nothing pending: `$`, `\` and `%` start a token; any other character goes
      through the brace check and is emitted unless an action fired. */
  function HandlePrevNoTokenChar(s: State, c: char): (r: Step)
    ensures s.currentString <= r.state.currentString
  {
    if c == '$' then Step(SetPrevToken(s, Token(Dollar, "")), Pass)
    else if c == '\\' then Step(SetPrevToken(s, Token(Backslash, "")), Pass)
    else if c == '%' then Step(CheckForComment(s, c), Pass)
    else
      var (s1, action) := BraceCheck(s, c);
      Step(if !action then AddToOutputString(s1, [c]) else s1, Pass)
  }

  /** After a `\`: line breaks, escaped characters, the four math delimiters,
      the start of a command name, or any other escaped character. */
  function HandlePrevBackslash(s: State, c: char): (r: Step)
    ensures s.currentString <= r.state.currentString
  {
    if c == '\\' then
      var s1 :=
        if !IsMathModeActive(s) && s.envMode == NoMathEnv then
          AddToOutputString(Log(s, "Wrapped newline \\\\ in \\( \\)"), "\\(\\\\ \\)")
        else
          AddToOutputString(s, "\\\\");
      Step(SetPrevToken(s1, Token(NoToken, "")), Pass)
    else if c == '$' || c == '{' || c == '}' || c == '%' then
      Step(AddToOutputString(SetPrevToken(s, Token(NoToken, "")), "\\" + [c]), Pass)
    else if c == '(' || c == '[' then
      if !IsMathModeActive(s) then
        var s1 := SetMathMode(s, if c == '(' then Inline else Block);
        Step(AddToOutputString(SetPrevToken(s1, Token(NoToken, "")), "\\" + [c]), Pass)
      else
        Step(s, Fail("unexpected math mode opening \\" + [c] + " in math mode"))
    else if c == ')' || c == ']' then
      if !IsMathModeActive(s) then
        Step(s, Fail("unexpected closure \\" + [c] + " of math mode"))
      else if c == ')' && s.mode == Block then
        Step(s, Fail("mismatched closure of math mode: \\)"))
      else if c == ']' && s.mode == Inline then
        Step(s, Fail("mismatched closure of math mode: \\]"))
      else
        Step(AddToOutputString(SetPrevToken(SetMathMode(s, NotOpen), Token(NoToken, "")), "\\" + [c]), Pass)
    else if IsLetter(c) then
      Step(SetPrevToken(s, Token(BackslashOngoing, [c])), Pass)
    else
      Step(SetPrevToken(AddToOutputString(s, "\\" + [c]), Token(NoToken, "")), Pass)
  }

  /** The log message of an applied replacement. */
  function ReplacementLogMessage(name: string, repl: CommandReplacement): string {
    if repl.argCommand then
      if repl.rightRepl != "" then "Replaced \\" + name + "{...} with " + repl.leftRepl + "..." + repl.rightRepl
      else "Replaced \\" + name + "{...} with " + repl.leftRepl
    else if repl.optArgCommand then
      if repl.rightRepl != "" then "Replaced \\" + name + "[...] with " + repl.leftRepl + "..." + repl.rightRepl
      else "Replaced \\" + name + "[...] with" + repl.leftRepl
    else
      "Replaced \\" + name + " with " + repl.leftRepl
  }

  /** A command name is being collected: letters extend it; any other character
      ends it and the name is a custom command (recorded, passed through), a
      replacement (checked for its argument), or unknown (passed through). */
  function HandlePrevBackslashOngoing(s: State, c: char): (r: Step)
    requires CarriesInfo(s.prevToken.ttype)
    ensures s.currentString <= r.state.currentString
  {
    if IsLetter(c) then
      Step(AddTokenInfo(s, [c]), Pass)
    else
      var command := GetTokenInfo(s);
      var custom := command in GetCustomCommands();
      var s1 := if custom then AddCommandUsage(s, command) else s;
      var repl := if custom then None else GetCommandReplacement(s, command);
      match repl
      case Some(cr) =>
        if cr.argCommand && c != '{' then Step(s, Fail("expected { for command " + command))
        else if !cr.argCommand && cr.optArgCommand && c != '[' then Step(s, Fail("expected [ for command " + command))
        else
          var name := if cr.argCommand || cr.optArgCommand then command else cr.leftRepl[1..];
          FinishCommand(s1, c, name, command, repl)
      case None => FinishCommand(s1, c, command, command, repl)
  }

  /** The second half of a finished command name: `begin`/`end` start an
      environment name; a replacement emits its left text and then pushes a
      brace action, sets the bracket action or re-dispatches the character;
      anything else is emitted as `\name` and the character re-dispatched.
      `command` is the name, overwritten by the zero-argument case, and
      `oldCommand` the name as collected. */
  function FinishCommand(s: State, c: char, command: string, oldCommand: string,
                         repl: Option<CommandReplacement>): (step: Step)
    ensures s.currentString <= step.state.currentString
  {
    if command == "begin" || command == "end" then
      var t := if command == "begin" then EnvironOpen else EnvironClose;
      Step(SetPrevToken(BraceCheck(s, c).0, Token(t, "")), Pass)
    else
      var s1 := match repl
        case Some(r) => Emit(Log(s, ReplacementLogMessage(oldCommand, r)), r.escapeRepl, r.leftRepl)
        case None => AddToOutputString(s, "\\" + command);
      var s2 := SetPrevToken(s1, Token(NoToken, ""));
      if repl.Some? && (repl.value.argCommand || repl.value.optArgCommand) then
        var r := repl.value;
        var s3 :=
          if r.argCommand then PushClosingBraceAction(s2, BraceClosingData(r.escapeRepl, s2.openBraces, r.rightRepl))
          else SetBracketReplacement(s2, BracketClosingData(r.escapeRepl, r.rightRepl));
        Step(BraceCheck(s3, c).0, Pass)
      else
        HandleIdle(s2, c)
  }

  /** The name of `\begin{..}` is being collected; at `}` the environment is
      opened: pushed, replaced by its catalog text, and, when it is the only
      open math environment and no math mode is open, made the math environment
      (wrapped in `\(` when it has no catalog entry). */
  function HandlePrevEnvironOpen(s: State, c: char): (r: Step)
    requires CarriesInfo(s.prevToken.ttype)
    ensures s.currentString <= r.state.currentString
  {
    var s1 := BraceCheck(s, c).0;
    if c == '}' then
      var environ := GetTokenInfo(s1);
      var s2 := AddEnvironment(s1, environ);
      var repl := GetEnvRepl(environ);
      var s3 :=
        if repl.Some? then
          Emit(Log(s2, "Replaced environment " + environ + " with " + repl.value.leftRepl + "..." + repl.value.rightRepl),
               repl.value.escapeRepl, repl.value.leftRepl)
        else s2;
      var s4 := SetPrevToken(s3, Token(NoToken, ""));
      if environ in GetKnownMathEnvirons() && CountMathEnvs(s4) <= 1 && s4.mode == NotOpen then
        var s5 :=
          if repl.None? then
            AddToOutputString(Log(s4, "Wrapped environment " + environ + " in \\( \\)"), "\\(\\begin{" + environ + "}")
          else s4;
        Step(SetEnv(s5, MathEnv), Pass)
      else
        Step(if repl.None? then AddToOutputString(s4, "\\begin{" + environ + "}") else s4, Pass)
    else
      Step(AddTokenInfo(s1, [c]), Pass)
  }

  /** The name of `\end{..}` is being collected; at `}` the environment is
      popped (an error if it is not the innermost one), replaced by its catalog
      text, and, when no math environment remains open and no math mode is open,
      the math environment ends (closed with `\)` when it has no catalog entry). */
  function HandlePrevEnvironClose(s: State, c: char): (r: Step)
    requires CarriesInfo(s.prevToken.ttype)
    ensures s.currentString <= r.state.currentString
  {
    var s1 := BraceCheck(s, c).0;
    if c == '}' then
      var environ := GetTokenInfo(s1);
      var (s2, err) := PopEnvironment(s1, environ);
      if err.Fail? then
        Step(s2, err)
      else
        var repl := GetEnvRepl(environ);
        var s3 := if repl.Some? then Emit(s2, repl.value.escapeRepl, repl.value.rightRepl) else s2;
        var s4 := SetPrevToken(s3, Token(NoToken, ""));
        if environ in GetKnownMathEnvirons() && CountMathEnvs(s4) == 0 && s4.mode == NotOpen then
          var s5 := if repl.None? then AddToOutputString(s4, "\\end{" + environ + "}\\)") else s4;
          Step(SetEnv(s5, NoMathEnv), Pass)
        else
          Step(if repl.None? then AddToOutputString(s4, "\\end{" + environ + "}") else s4, Pass)
    else
      Step(AddTokenInfo(s1, [c]), Pass)
  }

  // ---------------------------------------------------------------------
  // The whole scan

  /** Every character of `input` dispatched in turn; errors are dropped. */
  function Run(s: State, input: string): State {
    if input == [] then s
    else HandleCharacter(Run(s, input[..|input| - 1]), input[|input| - 1]).state
  }

  /** The state before the scan of `original` (the input plus the sentinel). */
  function InitialFor(original: string): State {
    SetHtmlIfNeeded(TS.Initial(), original)
  }

  /** The state after scanning the input and the trailing sentinel space. */
  function Scan(latex: string): State {
    Run(InitialFor(latex + " "), latex + " ")
  }

  /** The final trim needs a non-empty buffer (slicing with -1 panics). */
  predicate TrimDefined(latex: string) {
    |Scan(latex).currentString| >= 1
  }

  const HtmlInfo: string := "Output contains HTML.\nInput in Moodle as source code (Ansicht -> Quellcode)!"

  /** The result record; the log is the counted message map. */
  datatype TransformResult = TransformResult(
    transformed: string,
    operationsLog: seq<string>,
    success: bool,
    errorMessage: string,
    log: map<string, nat>,
    info: string)

  /** The whole call: scan, preamble, trimmed buffer. */
  function Transform(latex: string): TransformResult
    requires TrimDefined(latex)
  {
    var s := Scan(latex);
    var out := s.currentString;
    TransformResult(
      PreambleFor(s.usedCustomCommands) + out[..|out| - 1],
      [],
      true,
      "",
      LogAll(s.logMap, IncludedMessages(PreambleCommands(s.usedCustomCommands))),
      if s.html then HtmlInfo else "")
  }

  // ---------------------------------------------------------------------
  // The final trim as evidently intended

  /** The state after the input itself, before the sentinel space. */
  function BeforeSentinel(latex: string): State {
    Run(InitialFor(latex + " "), latex)
  }

  /** Whether the sentinel space reached the output: then it is the last
      character. A pending comment, environment name or failing argument
      command swallows it. */
  predicate SentinelEmitted(latex: string) {
    SentinelAfter(Scan(latex), |BeforeSentinel(latex).currentString|)
  }

  /** The final buffer grew past `before`, the length it had before the
      sentinel's step, and ends in the space. */
  predicate SentinelAfter(s: State, before: nat) {
    var out := s.currentString;
    |out| > before && out[|out| - 1] == ' '
  }

  /** The result built from the final state with the corrected trim. */
  function FixedResult(s: State, before: nat): TransformResult {
    var out := s.currentString;
    TransformResult(
      PreambleFor(s.usedCustomCommands) + (if SentinelAfter(s, before) then out[..|out| - 1] else out),
      [],
      true,
      "",
      LogAll(s.logMap, IncludedMessages(PreambleCommands(s.usedCustomCommands))),
      if s.html then HtmlInfo else "")
  }

  /** The whole call with the corrected trim: defined for every input. */
  function TransformFixed(latex: string): TransformResult {
    FixedResult(Scan(latex), |BeforeSentinel(latex).currentString|)
  }
}
