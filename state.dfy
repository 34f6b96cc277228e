/** The scan state of the transformer as a value, and one function per
    primitive operation on it. The class `TransformationInfo` holds the same
    fields and its methods are proved to act on them as these functions say. */
module TransformState {
  import opened Wrappers
  import opened Text
  import opened Commands
  import opened Environs

  /** Which math delimiter, if any, is open. */
  datatype MathMode = NotOpen | Inline | Block

  /** Whether an outermost math environment is open. */
  datatype EnvironMode = MathEnv | NoMathEnv

  /** The kind of the pending token; `NoToken` is the state with nothing pending. */
  datatype TokenType = Backslash | BackslashOngoing | EnvironOpen | EnvironClose | Dollar | Comment | NoToken

  /** The pending token with the text collected so far. */
  datatype Token = Token(ttype: TokenType, tokenInfo: string)

  /** The token kinds that collect a name. */
  predicate CarriesInfo(t: TokenType) {
    t == BackslashOngoing || t == EnvironOpen || t == EnvironClose
  }

  /** Only the name-collecting kinds may carry text. */
  predicate WellFormedToken(tk: Token) {
    CarriesInfo(tk.ttype) || tk.tokenInfo == ""
  }

  /** What to emit when the brace counter comes back to `depth`. */
  datatype BraceClosingData = BraceClosingData(escape: bool, depth: int, replacement: string)

  /** What to emit at the next `]`. */
  datatype BracketClosingData = BracketClosingData(escape: bool, replacement: string)

  datatype State = State(
    currentString: string,
    openBraces: int,
    mode: MathMode,
    envMode: EnvironMode,
    prevToken: Token,
    usedCustomCommands: set<string>,
    braceReplacement: seq<BraceClosingData>,
    environmentStack: seq<string>,
    bracketReplacement: Option<BracketClosingData>,
    html: bool,
    logMap: map<string, nat>)

  /** The state `TransformLatex` starts from. */
  function Initial(): State {
    State("", 0, NotOpen, NoMathEnv, Token(NoToken, ""), {}, [], [], None, false, map[])
  }

  // ---------------------------------------------------------------------
  // The counted log

  /** How often `msg` has been logged. */
  function Count(m: map<string, nat>, msg: string): nat {
    if msg in m then m[msg] else 0
  }

  /** One more occurrence of `msg`: the first sets the count to 1, every later
      one adds 1; no other message changes. */
  function LogMessage(m: map<string, nat>, msg: string): (r: map<string, nat>)
    ensures Count(r, msg) == Count(m, msg) + 1
    ensures forall k :: k != msg ==> Count(r, k) == Count(m, k)
    ensures r.Keys == m.Keys + {msg}
  {
    if msg !in m then m[msg := 1] else m[msg := m[msg] + 1]
  }

  /** Logging a list of messages in order. */
  function LogAll(m: map<string, nat>, msgs: seq<string>): map<string, nat> {
    if msgs == [] then m else LogMessage(LogAll(m, msgs[..|msgs| - 1]), msgs[|msgs| - 1])
  }

  lemma LogAllSnoc(m: map<string, nat>, msgs: seq<string>, msg: string)
    ensures LogAll(m, msgs + [msg]) == LogMessage(LogAll(m, msgs), msg)
  {
    assert (msgs + [msg])[..|msgs|] == msgs;
  }

  /** After logging a list, each message's count has grown by its number of
      occurrences in the list. */
  lemma {:induction false} LogAllCounts(m: map<string, nat>, msgs: seq<string>, k: string)
    ensures Count(LogAll(m, msgs), k) == Count(m, k) + multiset(msgs)[k]
  {
    if msgs != [] {
      var init := msgs[..|msgs| - 1];
      assert msgs == init + [msgs[|msgs| - 1]];
      LogAllCounts(m, init, k);
    }
  }

  function Log(s: State, msg: string): State {
    s.(logMap := LogMessage(s.logMap, msg))
  }

  // ---------------------------------------------------------------------
  // The output buffer

  /** `text` as it is appended to an output that is HTML or not. */
  function Escaped(html: bool, text: string): string {
    if html then EscapeHtml(text) else text
  }

  /** Text without `& < >` or newline reads the same in both kinds of output. */
  lemma EscapedPlain(html: bool, text: string)
    requires forall i :: 0 <= i < |text| ==> !IsHtmlSpecial(text[i])
    ensures Escaped(html, text) == text
  {
    EscapeEachIdentity(text);
  }

  /** Escaping distributes over concatenation. */
  lemma EscapedConcat(html: bool, a: string, b: string)
    ensures Escaped(html, a + b) == Escaped(html, a) + Escaped(html, b)
  {
    EscapeEachConcat(a, b);
  }

  /** Appends `text`, HTML-escaped when the output is HTML. */
  function AddToOutputString(s: State, text: string): State {
    s.(currentString := s.currentString + Escaped(s.html, text))
  }

  /** Appends `text` as it is. */
  function AddRawToOutputString(s: State, text: string): State {
    s.(currentString := s.currentString + text)
  }

  /** The two appends, chosen by a replacement's escape flag. */
  function Emit(s: State, escape: bool, text: string): State {
    if escape then AddToOutputString(s, text) else AddRawToOutputString(s, text)
  }

  /** The output is HTML when the input holds `\begin{enumerate}` or `\begin{itemize}`. */
  function SetHtmlIfNeeded(s: State, original: string): State {
    s.(html := Contains(original, "\\begin{enumerate}") || Contains(original, "\\begin{itemize}"))
  }

  // ---------------------------------------------------------------------
  // Brace counter and closing actions

  function IncrBraces(s: State): State {
    s.(openBraces := s.openBraces + 1)
  }

  function DecrBraces(s: State): State {
    s.(openBraces := s.openBraces - 1)
  }

  function AnyClosingBraceAction(s: State): bool {
    |s.braceReplacement| > 0
  }

  /** The most recently pushed action (indexing an empty slice panics). */
  function GetClosingBraceAction(s: State): BraceClosingData
    requires AnyClosingBraceAction(s)
  {
    s.braceReplacement[|s.braceReplacement| - 1]
  }

  function PushClosingBraceAction(s: State, action: BraceClosingData): State {
    s.(braceReplacement := s.braceReplacement + [action])
  }

  /** Drops the most recent action (slicing an empty slice panics). */
  function PopClosingBraceAction(s: State): State
    requires AnyClosingBraceAction(s)
  {
    s.(braceReplacement := s.braceReplacement[..|s.braceReplacement| - 1])
  }

  /** Brace actions are last-in, first-out. */
  lemma BraceActionsLifo(s: State, action: BraceClosingData)
    ensures AnyClosingBraceAction(PushClosingBraceAction(s, action))
    ensures GetClosingBraceAction(PushClosingBraceAction(s, action)) == action
    ensures PopClosingBraceAction(PushClosingBraceAction(s, action)) == s
  {
  }

  // ---------------------------------------------------------------------
  // The pending bracket action

  /** Hands out the pending bracket action and clears the slot. */
  function ExtractBracketReplacement(s: State): (r: (State, Option<BracketClosingData>))
    ensures r.1 == s.bracketReplacement && r.0 == s.(bracketReplacement := None)
  {
    if s.bracketReplacement.Some? then
      var res := s.bracketReplacement;
      (s.(bracketReplacement := None), res)
    else
      (s, None)
  }

  function SetBracketReplacement(s: State, b: BracketClosingData): State {
    s.(bracketReplacement := Some(b))
  }

  /** A second extraction finds nothing. */
  lemma ExtractBracketOnce(s: State)
    ensures ExtractBracketReplacement(ExtractBracketReplacement(s).0).1 == None
  {
  }

  // ---------------------------------------------------------------------
  // Math mode, environment mode, used commands

  function SetMathMode(s: State, mode: MathMode): State {
    s.(mode := mode)
  }

  function IsMathModeActive(s: State): bool {
    s.mode != NotOpen
  }

  function SetEnv(s: State, env: EnvironMode): State {
    s.(envMode := env)
  }

  function AddCommandUsage(s: State, command: string): State {
    s.(usedCustomCommands := s.usedCustomCommands + {command})
  }

  // ---------------------------------------------------------------------
  // The environment stack

  /** How many entries of `envs` belong to `names`. */
  function CountIn(envs: seq<string>, names: set<string>): nat {
    if envs == [] then 0
    else CountIn(envs[..|envs| - 1], names) + if envs[|envs| - 1] in names then 1 else 0
  }

  /** `CountIn` is additive over concatenation. */
  lemma {:induction false} CountInConcat(a: seq<string>, b: seq<string>, names: set<string>)
    ensures CountIn(a + b, names) == CountIn(a, names) + CountIn(b, names)
    decreases |b|
  {
    if b == [] {
      assert a + b == a;
    } else {
      var init := b[..|b| - 1];
      assert (a + b)[..|a + b| - 1] == a + init;
      CountInConcat(a, init, names);
    }
  }

  /** The count is bounded by the length; it is zero exactly when no entry
      belongs to `names`, and the full length exactly when every entry does. */
  lemma {:induction false} CountInBounds(envs: seq<string>, names: set<string>)
    ensures CountIn(envs, names) <= |envs|
    ensures CountIn(envs, names) == 0 <==> forall i :: 0 <= i < |envs| ==> envs[i] !in names
    ensures CountIn(envs, names) == |envs| <==> forall i :: 0 <= i < |envs| ==> envs[i] in names
  {
    if envs != [] {
      var init := envs[..|envs| - 1];
      CountInBounds(init, names);
      assert forall i :: 0 <= i < |init| ==> init[i] == envs[i];
    }
  }

  /** The number of open math environments. */
  function CountMathEnvs(s: State): nat {
    CountIn(s.environmentStack, GetKnownMathEnvirons())
  }

  function AddEnvironment(s: State, env: string): State {
    s.(environmentStack := s.environmentStack + [env])
  }

  /** The innermost open environment. */
  function GetCurrEnv(s: State): Option<string> {
    if |s.environmentStack| == 0 then None else Some(s.environmentStack[|s.environmentStack| - 1])
  }

  /** Closing `env`: an error that leaves the state as it was on an empty stack
      or when the innermost environment is another one; otherwise exactly the
      innermost entry is removed. */
  function PopEnvironment(s: State, env: string): (r: (State, Outcome))
    ensures r.1.Pass? <==> GetCurrEnv(s) == Some(env)
    ensures r.1.Pass? ==> r.0.environmentStack + [env] == s.environmentStack
    ensures r.0 == s.(environmentStack := r.0.environmentStack)
    ensures r.1.Fail? ==> r.0 == s
  {
    if |s.environmentStack| == 0 then
      (s, Fail("unexpected environment closure: " + env))
    else
      var lastEnv := s.environmentStack[|s.environmentStack| - 1];
      if lastEnv != env then
        (s, Fail("unexpected environment closure: " + env + ", last open environment: " + lastEnv))
      else
        (s.(environmentStack := s.environmentStack[..|s.environmentStack| - 1]), Pass)
  }

  // ---------------------------------------------------------------------
  // Catalog lookups

  function GetEnvRepl(env: string): Option<EnvReplacement> {
    if env in GetEnvReplacements() then Some(GetEnvReplacements()[env]) else None
  }

  /** The override of `command` inside `env`, if `env` has one. */
  function GetEnvCommandRepl(env: string, command: string): Option<CommandReplacement> {
    if env in GetEnvReplacements() && command in GetEnvReplacements()[env].innerRepl then
      Some(GetEnvReplacements()[env].innerRepl[command])
    else
      None
  }

  /** The `\item` marker inside `enumerate`, by the number of open `enumerate`s. */
  function EnumerateItem(enumerateCount: int): CommandReplacement {
    if enumerateCount == 1 then CommandReplacement(false, false, false, "<li type=\"a\">)", "")
    else if enumerateCount == 2 then CommandReplacement(false, false, false, "<li type=\"i\">)", "")
    else CommandReplacement(false, false, false, "<li type=\"A\">)", "")
  }

  /** The replacement of a command: the global catalog first; then, inside an
      environment, the `enumerate` special case for `\item`, or the innermost
      environment's override. Every result is well shaped. */
  function GetCommandReplacement(s: State, command: string): (r: Option<CommandReplacement>)
    ensures r.Some? ==> WellShaped(r.value)
  {
    CommandCatalogShape();
    EnvironmentCatalogShape();
    if command in GetCommandReplacements() then
      Some(GetCommandReplacements()[command])
    else
      match GetCurrEnv(s)
      case None => None
      case Some(env) =>
        if env == "enumerate" && command == "item" then
          Some(EnumerateItem(CountIn(s.environmentStack, {"enumerate"})))
        else
          GetEnvCommandRepl(env, command)
  }

  /** Only five names ever have a replacement: the four of the global catalog
      and `item`. In particular `begin` and `end` never do. */
  lemma ReplacedNames(s: State, command: string)
    ensures GetCommandReplacement(s, command).Some? ==>
      command in {"R", "mbox", "Tilde", "intertext", "item"}
  {
    CommandCatalogShape();
    EnvironmentCatalogShape();
  }

  /** A global replacement applies in every environment. */
  lemma GlobalReplacementWins(s: State, command: string)
    requires command in GetCommandReplacements()
    ensures GetCommandReplacement(s, command) == Some(GetCommandReplacements()[command])
  {
  }

  /** What `\item` means: nothing outside any environment or inside one without
      an override, a `<li>` marker inside `itemize`, a bracket-argument command
      with empty texts inside `description`, and inside `enumerate` a marker
      numbered by how many `enumerate`s are open (at least the innermost one),
      so the catalog's own `enumerate` entry is never used. */
  lemma ItemMeaning(s: State)
    ensures s.environmentStack == [] ==> GetCommandReplacement(s, "item") == None
    ensures GetCurrEnv(s) == Some("itemize") ==>
      GetCommandReplacement(s, "item") == Some(CommandReplacement(false, false, false, "<li>", ""))
    ensures GetCurrEnv(s) == Some("description") ==>
      GetCommandReplacement(s, "item") == Some(CommandReplacement(false, false, true, "", ""))
    ensures GetCurrEnv(s) == Some("enumerate") ==>
      var n := CountIn(s.environmentStack, {"enumerate"});
      && n >= 1
      && GetCommandReplacement(s, "item") == Some(CommandReplacement(false, false, false,
           if n == 1 then "<li type=\"a\">)" else if n == 2 then "<li type=\"i\">)" else "<li type=\"A\">)", ""))
    ensures GetCurrEnv(s).Some? && GetCurrEnv(s).value !in GetEnvReplacements() ==>
      GetCommandReplacement(s, "item") == None
  {
    CommandCatalogShape();
  }

  // ---------------------------------------------------------------------
  // The pending token

  /** Replaces the pending token (a token that must not carry text and does
      makes the source panic). */
  function SetPrevToken(s: State, tk: Token): State
    requires WellFormedToken(tk)
  {
    s.(prevToken := tk)
  }

  function GetTokenInfo(s: State): string
    requires CarriesInfo(s.prevToken.ttype)
  {
    s.prevToken.tokenInfo
  }

  function AddTokenInfo(s: State, text: string): State
    requires CarriesInfo(s.prevToken.ttype)
  {
    s.(prevToken := s.prevToken.(tokenInfo := s.prevToken.tokenInfo + text))
  }
}
