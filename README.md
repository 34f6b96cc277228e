# LaTeX-to-STACK transformer, modelled in Dafny

This project models the `latex` package of the LaTeX-to-STACK rewriter: a single left-to-right
pass over the characters of a LaTeX text that rewrites math delimiters (`$…$` and `$$…$$` become
`\(…\)` and `\[…\]`), wraps stray line breaks and math environments in `\( \)`, replaces a small
catalog of commands (`\R`, `\mbox`, `\Tilde`, `\intertext`, `\item` inside list environments),
replaces the list environments by HTML, drops comments, and finally prepends a preamble that
defines the custom norm commands the text used.

Layout, following the package:

- `wrappers.dfy`: `Option` and `Outcome` (`Pass` or `Fail(error)`). `Fail` stands for the Go `error` a handler returns.
- `text.dfy` (`Text`): letters, `strings.Replace`/`strings.Contains`, and the HTML escaping of the output.
- `commands.dfy` (`Commands`): the custom-command, dependency, order and replacement catalogs, and the preamble as a specification.
- `environs.dfy` (`Environs`): the environment catalog and the known math environments.
- `state.dfy` (`TransformState`): the scan state as a value and every primitive of `latexTransformationInfo` as a function on it.
- `transforminfo.dfy` (`TransformInfo`): the class `TransformationInfo`, with the state's fields. Each of its methods is proved to move the state exactly as the corresponding `TransformState` function does.
- `preamble.dfy` (`Preamble`): `CreateCustomCommandPreamble` as an imperative method with its three loops.
- `latexspec.dfy` (`LatexSpec`): the handlers as functions from a state and a character to a `Step` (new state and outcome). Also the whole scan (`Run`, `Scan`), the result (`Transform`) and the corrected trim (`TransformFixed`).
- `latex.dfy` (`Latex`): the handlers as methods that mutate a `TransformationInfo` in place. Each returns the outcome of its step and is proved to agree with its `LatexSpec` function. `TransformLatex` ignores the outcome the way the Go loop does.
- `properties.dfy` (`LatexProperties`): the behaviour of single steps.
- `scan.dfy` (`ScanProperties`): the behaviour of whole scans — comments, plain text, inline math around plain text and the final trim.

Three behaviours of the code are worth stating up front, because a reader might expect otherwise:

- The handlers return errors, but the loop at `latex/latex.go:34-36` discards them. The result always reports success with an empty error message (`latex/latex.go:46-53`). `TransformLatex` and `Transform` model this.
- `\norm` is a custom command, not a replacement. It is emitted as `\norm` and its definition goes into the preamble (`CustomCommandPassThrough`, `VariantIncludesNorm`).
- A single `$` inside block math fails with "math error: $ after open $$", and `$$` inside inline math fails with "math error: $$ after open $" (`SingleDollar`, `DoubleDollar`).

## Model

| member | source | states |
|---|---|---|
| Text.EscapeHtml | latex/transforminfo.go:109-119 | the four replacement passes (`&` first, then `<`, `>`, newline) equal escaping every character on its own, so no entity is escaped twice |
| Text.EscapeHtmlPerChar | latex/transforminfo.go:110-115 | the sequence of `strings.Replace` passes equals the per-character escape on every text |
| Text.EscapeEachConcat | latex/transforminfo.go:109-119 | escaping distributes over concatenation, so escaping piecewise appends equals escaping the whole |
| Text.EscapeEachIdentity | latex/transforminfo.go:109-119 | escaping never shortens a text, and leaves it unchanged exactly when it contains none of `&`, `<`, `>`, newline |
| Text.ReplaceAllConcat | latex/transforminfo.go:111-114 | replacing every occurrence of a character distributes over concatenation |
| Text.ReplaceAllAbsent | latex/transforminfo.go:111-114 | replacing a character that does not occur leaves the text unchanged |
| Text.ContainsAt | latex/transforminfo.go:97-99 | `strings.Contains` holds exactly when the pattern occurs at some index |
| Text.ContainsFirstChar | latex/transforminfo.go:97-99 | a text lacking the pattern's first character does not contain the pattern |
| Commands.CustomCatalogShape | latex/commands.go:3-25 | the custom commands are exactly the six names of the order, the order has no repetitions, and every command with dependencies is in the catalog |
| Commands.GetCustomCommands | latex/commands.go:3-12 | the six custom definitions, indexed by name; its key set and order are stated by `CustomCatalogShape`; every name of the order has a definition (`CustomCommandInCatalog`); the texts are the literals of commands.go:5-10 |
| Commands.CustomCommandsInOrder | latex/commands.go:14-16 | the preamble order abs, norm, energynorm, normone, normtwo, norminf; `CustomCatalogShape` proves it covers the catalog without repetitions |
| Commands.CustomCommandDependencies | latex/commands.go:18-25 | each norm variant depends on `norm`; `DependencyClosureExplicit` states what that dependency adds |
| Commands.CustomCommandInCatalog | latex/commands.go:14-16 | every name of the preamble order has a definition |
| Commands.CommandCatalogShape | latex/commands.go:35-42 | the replacement catalog holds exactly `R`, `mbox`, `Tilde`, `intertext`; `R` takes no argument, the other three a brace argument; no entry takes both kinds |
| Commands.GetCommandReplacements | latex/commands.go:35-42 | the four global replacements with their escape flags, argument kinds and texts; their shape is stated by `CommandCatalogShape` |
| Commands.AddedDependenciesInsert | latex/commands.go:46-53 | one more used command adds exactly its own dependencies |
| Commands.DependencyClosureExplicit | latex/commands.go:44-53 | the first loop adds `norm` exactly when some norm variant is used, and nothing else |
| Commands.DependencyClosureIdempotent | latex/commands.go:44-53 | the used set only grows, and a second closure adds nothing |
| Commands.VariantIncludesNorm | latex/commands.go:18-25 | a used norm variant (e.g. `normone`) brings `norm` and its definition into the preamble |
| Commands.SelectedMembers | latex/commands.go:57-64 | a name is selected exactly when it is in the order and used |
| Commands.SelectedDistinct | latex/commands.go:57-64 | the selection from an order without repetitions has no repetitions |
| Commands.SelectedInCatalogOrder | latex/commands.go:54-64 | the selection is the used commands in the order abs, norm, energynorm, normone, normtwo, norminf |
| Commands.PreambleEmptyIff | latex/commands.go:65-67 | the preamble is empty exactly when no catalog command remains used after the closure |
| Commands.NothingUsed | latex/commands.go:65-67 | with no used command nothing is included and the preamble is empty |
| Commands.JoinDefinitionsConcat | latex/commands.go:69-71 | joining the definitions distributes over concatenation of the definition lists |
| Commands.JoinDefinitionsSpaces | latex/commands.go:68-73 | no definitions join to nothing; in the joined text each definition is followed by exactly one space, between the join of those before it and the join of those after it; a non-empty preamble is that text between `\(` and `\)` |
| Commands.IncludedMessages | latex/commands.go:62 | one "Included definition for X" message per included name, in order |
| Commands.IncludedMessageInjective | latex/commands.go:62 | different names give different messages |
| Commands.IncludedMessagesOnce | latex/commands.go:57-64 | for names without repetitions the message of X occurs once if X is included and never otherwise |
| Environs.EnvironmentCatalogShape | latex/environs.go:10-51 | the replaced environments are exactly enumerate, itemize, description, none escapes, each overrides only `item`, and in description `item` takes a bracket argument |
| Environs.GetEnvReplacements | latex/environs.go:10-52 | the three list environments with their texts and `item` overrides; stated by `EnvironmentCatalogShape` |
| Environs.GetKnownMathEnvirons | latex/environs.go:54-62 | align, align*, aligned, equation, equation*; `ReplacedAreNotMath` proves none of them is replaced |
| Environs.ReplacedAreNotMath | latex/environs.go:10-61 | no replaced environment is a known math environment |
| TransformState.LogMessage | latex/transforminfo.go:58-65 | the first log of a message sets its count to 1, each later one adds 1, no other count changes |
| TransformState.LogAllCounts | latex/transforminfo.go:58-65 | after logging a list of messages each count has grown by its number of occurrences in the list |
| TransformState.EscapedPlain | latex/transforminfo.go:109-119 | text without HTML-special characters is appended unchanged in either mode |
| TransformState.EscapedConcat | latex/transforminfo.go:109-119 | the appended text of a concatenation is the concatenation of the appended texts |
| TransformState.BraceActionsLifo | latex/transforminfo.go:125-139 | after a push an action is pending, the top is the pushed action, and a pop restores the state |
| TransformState.ExtractBracketReplacement | latex/transforminfo.go:84-91 | returns the pending bracket action and clears the slot, changing nothing else |
| TransformState.ExtractBracketOnce | latex/transforminfo.go:84-91 | a second extraction returns nothing |
| TransformState.CountInConcat | latex/transforminfo.go:158-166 | the count of matching entries is additive over concatenation of stacks |
| TransformState.CountInBounds | latex/transforminfo.go:158-166 | the count is at most the stack size, is zero exactly when no entry matches, and is the size exactly when all match |
| TransformState.PopEnvironment | latex/transforminfo.go:216-226 | succeeds exactly when the top is the named environment, then removes exactly that top; on failure the state is unchanged; nothing but the stack ever changes |
| TransformState.GetEnvRepl | latex/transforminfo.go:67-70 | the catalog entry of an environment, or nothing when it has none (Go's `ok` flag as an `Option`) |
| TransformState.GetEnvCommandRepl | latex/transforminfo.go:72-82 | the override of a command inside an environment: nothing when the environment has no catalog entry, nothing when the entry does not override the command, otherwise the override |
| TransformState.GetCommandReplacement | latex/transforminfo.go:176-203 | every replacement found takes at most one kind of argument and, without one, has a non-empty left text |
| TransformState.ReplacedNames | latex/transforminfo.go:176-203 | only `R`, `mbox`, `Tilde`, `intertext` and `item` ever have a replacement; `begin` and `end` never do |
| TransformState.GlobalReplacementWins | latex/transforminfo.go:176-178 | a catalog command resolves to its catalog entry in every environment |
| TransformState.ItemMeaning | latex/transforminfo.go:176-203 | `\item`: nothing outside environments, `<li>` in itemize, a bracket command in description, and in enumerate the marker for 1, 2 or at least 3 open enumerates |
| TransformInfo.TransformationInfo.constructor | latex/latex.go:11-32 | the fresh state: empty buffer, no braces, no math, no token, empty stacks, log and used set |
| TransformInfo.TransformationInfo.Log | latex/transforminfo.go:58-65 | the state moves as `TransformState.Log` |
| TransformInfo.TransformationInfo.ExtractBracketReplacement | latex/transforminfo.go:84-91 | returns and clears the slot as `TransformState.ExtractBracketReplacement` |
| TransformInfo.TransformationInfo.SetBracketReplacement | latex/transforminfo.go:93-95 | sets the bracket slot and nothing else |
| TransformInfo.TransformationInfo.SetHtmlIfNeeded | latex/transforminfo.go:97-99 | sets the HTML flag exactly when the input contains `\begin{enumerate}` or `\begin{itemize}` |
| TransformInfo.TransformationInfo.SetEnv | latex/transforminfo.go:105-107 | sets the environment flag and nothing else |
| TransformInfo.TransformationInfo.AddToOutputString | latex/transforminfo.go:109-119 | appends the text, escaped in HTML mode, by the four passes of the source |
| TransformInfo.TransformationInfo.AddRawToOutputString | latex/transforminfo.go:121-123 | appends the text unescaped |
| TransformInfo.TransformationInfo.GetClosingBraceAction | latex/transforminfo.go:129-131 | the top of the brace-action stack |
| TransformInfo.TransformationInfo.PushClosingBraceAction | latex/transforminfo.go:133-135 | appends the action to the stack |
| TransformInfo.TransformationInfo.PopClosingBraceAction | latex/transforminfo.go:137-139 | removes the top action |
| TransformInfo.TransformationInfo.IncrBraces | latex/transforminfo.go:141-143 | adds one to the brace counter |
| TransformInfo.TransformationInfo.DecrBraces | latex/transforminfo.go:145-147 | subtracts one from the brace counter |
| TransformInfo.TransformationInfo.CountMathEnvs | latex/transforminfo.go:158-166 | the loop's count is the number of stack entries that are known math environments |
| TransformInfo.TransformationInfo.AddCommandUsage | latex/transforminfo.go:172-174 | adds the command to the used set |
| TransformInfo.TransformationInfo.GetCommandReplacement | latex/transforminfo.go:176-203 | the lookup, with its enumerate-counting loop, returns `TransformState.GetCommandReplacement` |
| TransformInfo.TransformationInfo.AddEnvironment | latex/transforminfo.go:205-207 | pushes the environment |
| TransformInfo.TransformationInfo.GetCurrEnv | latex/transforminfo.go:209-214 | the top of the environment stack, or nothing when it is empty |
| TransformInfo.TransformationInfo.PopEnvironment | latex/transforminfo.go:216-226 | pops and reports as `TransformState.PopEnvironment` |
| TransformInfo.TransformationInfo.SetMathMode | latex/transforminfo.go:228-230 | sets the math mode and nothing else |
| TransformInfo.TransformationInfo.SetPrevToken | latex/transforminfo.go:244-249 | replaces the pending token; demands that a token without payload kind carries no text |
| TransformInfo.TransformationInfo.AddTokenInfo | latex/transforminfo.go:258-263 | appends to the payload; demands a payload-carrying token |
| TransformInfo.TransformationInfo.GetEnv | latex/transforminfo.go:101-103 | the math-environment flag of the state |
| TransformInfo.TransformationInfo.AnyClosingBraceAction | latex/transforminfo.go:125-127 | whether a brace action is waiting, i.e. the action stack is non-empty |
| TransformInfo.TransformationInfo.GetOpenBraces | latex/transforminfo.go:149-151 | the current brace depth |
| TransformInfo.TransformationInfo.GetKnownMathEnvirons | latex/transforminfo.go:153-156 | whether an environment is one of the known math environments |
| TransformInfo.TransformationInfo.CustomCommands | latex/transforminfo.go:168-170 | the custom-command catalog, which the state never changes |
| TransformInfo.TransformationInfo.GetMathMode | latex/transforminfo.go:232-234 | the current math mode |
| TransformInfo.TransformationInfo.IsMathModeActive | latex/transforminfo.go:236-238 | whether inline or block math is open |
| TransformInfo.TransformationInfo.GetTokenInfo | latex/transforminfo.go:251-256 | the name collected by the pending token; the Go panic for a token without a name is rendered as `requires CarriesInfo(prevToken.ttype)` |
| TransformInfo.TransformationInfo.GetTokenType | latex/transforminfo.go:265-267 | the type of the pending token |
| Preamble.PreambleLogsOnce | latex/commands.go:57-64 | the preamble logs "Included definition for X" exactly once per included X and never otherwise, and the used set only grows |
| Preamble.CreateCustomCommandPreamble | latex/commands.go:44-75 | returns `PreambleFor` of the used set and leaves the used set closed and one log entry per included definition |
| Preamble.AddDependencies | latex/commands.go:44-53 | the used set becomes its dependency closure |
| Preamble.CollectDefinitions | latex/commands.go:54-64 | returns the definitions of the used commands in catalog order, logging each |
| Preamble.RenderDefinitions | latex/commands.go:65-75 | the empty string for no definitions, else `\(`, each definition and a space, `\)` |
| LatexSpec.BraceCheck | latex/latex.go:56-87 | the brace check only appends to the output |
| LatexSpec.BraceCheckFrame | latex/latex.go:56-87 | the brace check touches only the counter, the actions, the bracket slot and the output; it fires only on `{`, `}`, `]` |
| LatexSpec.HandleCharacter | latex/latex.go:96-134 | no step ever removes output: the old buffer is a prefix of the new |
| LatexSpec.HandleIdle | latex/latex.go:103-116 | a step with nothing or a comment pending only appends to the output |
| LatexSpec.HandlePrevDollarChar | latex/latex.go:136-172 | the step after `$` only appends to the output |
| LatexSpec.HandlePrevNoTokenChar | latex/latex.go:174-189 | the step with nothing pending only appends to the output |
| LatexSpec.HandlePrevBackslash | latex/latex.go:191-248 | the step after `\` only appends to the output |
| LatexSpec.HandlePrevBackslashOngoing | latex/latex.go:250-331 | the step on a command name only appends to the output |
| LatexSpec.FinishCommand | latex/latex.go:279-328 | finishing a command only appends to the output |
| LatexSpec.HandlePrevEnvironOpen | latex/latex.go:333-364 | the step on a `\begin` name only appends to the output |
| LatexSpec.HandlePrevEnvironClose | latex/latex.go:366-398 | the step on an `\end` name only appends to the output |
| Latex.BraceCheck | latex/latex.go:56-87 | mutates the state as `LatexSpec.BraceCheck` and returns whether an action fired |
| Latex.CheckForComment | latex/latex.go:89-94 | on `%` logs "Removed comment" and sets a comment token |
| LatexSpec.CheckForComment | latex/latex.go:89-94 | on `%` a "Removed comment" entry and a comment token, otherwise nothing; the whole comment's effect is stated by `CommentRemoved` |
| Latex.HandleCharacter | latex/latex.go:96-134 | the dispatch mutates the state and returns the outcome of `LatexSpec.HandleCharacter` |
| Latex.HandlePrevDollarChar | latex/latex.go:136-172 | as `LatexSpec.HandlePrevDollarChar`, including the dropped error of the re-dispatch |
| Latex.HandlePrevNoTokenChar | latex/latex.go:174-189 | as `LatexSpec.HandlePrevNoTokenChar` |
| Latex.HandlePrevBackslash | latex/latex.go:191-248 | as `LatexSpec.HandlePrevBackslash` |
| Latex.HandlePrevBackslashOngoing | latex/latex.go:250-278 | as `LatexSpec.HandlePrevBackslashOngoing`; an argument error leaves the state untouched |
| Latex.FinishCommand | latex/latex.go:279-328 | as `LatexSpec.FinishCommand`, propagating the re-dispatch's error |
| Latex.HandlePrevEnvironOpen | latex/latex.go:333-364 | as `LatexSpec.HandlePrevEnvironOpen` |
| Latex.HandlePrevEnvironClose | latex/latex.go:366-398 | as `LatexSpec.HandlePrevEnvironClose`, failing (after the brace check) on a mismatched close |
| Latex.ScanInput | latex/latex.go:34-36 | the loop ignores every error and leaves the state `Run` describes |
| Latex.TransformLatex | latex/latex.go:9-54 | the result is `Transform`: success, no error, preamble plus the buffer without its last element |
| LatexSpec.Run | latex/latex.go:34-36 | every character dispatched in turn with its error dropped; `RunConcat` and `RunGrows` state that it composes and only appends |
| LatexSpec.Scan | latex/latex.go:10-36 | the initial state, with HTML set from the input, scanned over the input and the sentinel space; `ScanExtendsInput` and `PlainScan` state its output |
| LatexSpec.Transform | latex/latex.go:37-53 | preamble plus the buffer without its last element, no error, success, the log and the HTML note; `PlainTextUnchanged` and `TrimDropsInput` state it on whole inputs |
| Latex.ScanWithSentinel | latex/latex.go:33-36 | the scan of input and sentinel, reporting the buffer length before the sentinel |
| Latex.TransformLatexFixed | latex/latex.go:46-47 | the result with the corrected trim is `TransformFixed` |
| LatexProperties.IdleFrame | latex/latex.go:174-189 | with nothing or a comment pending a step passes and leaves math mode, environment flag, stack and used set alone |
| LatexProperties.DoubleDollar | latex/latex.go:140-162 | `$$` opens block math with `\[`, closes it with `\]`, and inside inline math fails with "math error: $$ after open $" |
| LatexProperties.SingleDollar | latex/latex.go:140-172 | `$` then another character opens inline math with `\(`, closes it with `\)`, and inside block math fails with "math error: $ after open $$" |
| LatexProperties.BackslashOpenings | latex/latex.go:206-217 | `\(`/`\[` fail unchanged in math mode, else set inline/block and emit the delimiter |
| LatexProperties.BackslashClosings | latex/latex.go:218-237 | `\)`/`\]` fail unchanged outside math or on the wrong kind, else close math and emit the delimiter |
| LatexProperties.BackslashLineBreak | latex/latex.go:192-199 | `\\` emits `\(\\ \)` outside math and math environments, `\\` otherwise, and resets the token |
| LatexProperties.EscapedCharacters | latex/latex.go:202-205 | `\$ \{ \} \%` are emitted as they are and change nothing but buffer and token |
| LatexProperties.BraceArgument | latex/latex.go:266-309 | a brace-argument command fails unchanged without `{`; with `{` emits its left text, pushes an action at the current depth, swallows the `{` |
| LatexProperties.BracketArgument | latex/latex.go:270-313 | a bracket-argument command fails unchanged without `[`; with `[` emits its left text and sets the bracket slot |
| LatexProperties.ClosingBrace | latex/latex.go:56-74 | the `}` that returns to the top action's depth emits its right text and pops it; other `}` are emitted |
| LatexProperties.ClosingBracket | latex/latex.go:75-85 | `]` emits and clears the pending bracket action; without one it is emitted |
| LatexProperties.ZeroArgumentTexts | latex/latex.go:274-275 | the zero-argument left texts are `\mathbb{R}` and the list markers, so the overwritten name is never `begin` or `end` |
| LatexProperties.ZeroArgumentReplacement | latex/latex.go:299-318 | a zero-argument replacement logs, emits its left text and re-dispatches the ending character |
| LatexProperties.CustomCommandPassThrough | latex/latex.go:258-260 | a custom command is recorded as used, emitted as `\name`, and its ending character re-dispatched |
| LatexProperties.BeginEndTokens | latex/latex.go:279-285 | `\begin` and `\end` emit nothing of their own: once the name ends, the character goes through the brace check and an empty EnvironOpen or EnvironClose token is pending; stack, modes, log and used commands are unchanged |
| LatexProperties.UnknownCommandPassThrough | latex/latex.go:320-326 | an unknown command is emitted as `\name` and its ending character re-dispatched |
| LatexProperties.MathEnvironmentOpens | latex/latex.go:333-364 | `\begin{E}` of a math environment is pushed and, when outermost with no math mode, emitted as `\(\begin{E}` with the math flag set |
| LatexProperties.MathEnvironmentCloses | latex/latex.go:366-398 | the matching `\end{E}` pops and, when it ends the last math environment with no math mode, emits `\end{E}\)` and clears the flag |
| LatexProperties.UnknownEnvironment | latex/latex.go:355-359 | an environment outside the catalog and the math environments is emitted as `\begin{E}` and pushed, and for the innermost one `\end{E}` is emitted and it is popped (latex.go:389-393); math mode, the math-environment flag, the log and the used commands stay unchanged |
| LatexProperties.ReplacedEnvironment | latex/latex.go:333-398 | a catalog environment emits only its left/right text, is pushed and popped, and keeps the flag |
| LatexProperties.EnvironmentMismatch | latex/latex.go:366-398 | closing an environment other than the innermost fails |
| ScanProperties.RunConcat | latex/latex.go:34-36 | scanning `a + b` is scanning `a` and then `b` |
| ScanProperties.RunGrows | latex/latex.go:34-36 | a scan only appends to the output |
| ScanProperties.CommentStep | latex/latex.go:113-116 | inside a comment every character but newline is dropped; newline ends the comment unemitted |
| ScanProperties.CommentSkips | latex/latex.go:113-116 | a comment swallows any text without a newline |
| ScanProperties.CommentRemoved | latex/latex.go:89-94 | `%`, the rest of the line and its newline leave no output, only a "Removed comment" log entry |
| ScanProperties.PlainStep | latex/latex.go:174-189 | a plain character is emitted (escaped in HTML mode), nothing becomes pending, and the math mode, flag and stack are unchanged |
| ScanProperties.PlainStepFrame | latex/latex.go:174-189 | a plain character logs nothing and uses no command |
| ScanProperties.PlainRunQuiet | latex/latex.go:174-189 | plain text leaves nothing pending and no closing action waiting; the output mode, the math mode, the math-environment flag and the environment stack are unchanged |
| ScanProperties.PlainRun | latex/latex.go:174-189 | plain text is copied to the output, escaped as a whole in HTML mode |
| ScanProperties.PlainRunFrame | latex/latex.go:174-189 | plain text logs nothing and uses no command |
| ScanProperties.PlainScan | latex/latex.go:9-36 | the scan of text without `$`, `\`, `%` is the text and the sentinel, with empty log and used set |
| ScanProperties.PlainTextUnchanged | latex/latex.go:9-54 | text without `$`, `\`, `%` is transformed into itself: no preamble, no log, no HTML note |
| ScanProperties.DollarStep | latex/latex.go:136-172 | after `$` outside block math, a plain character is handled as if `\(` (opening) or `\)` (closing) had been emitted first with nothing pending |
| ScanProperties.DollarThenPlain | latex/latex.go:136-172 | in a quiet state outside block math, `$` and a plain character open (or close) inline math, emit `\(` (or `\)`) and then the character, and leave nothing pending |
| ScanProperties.InlineMath | latex/latex.go:136-189 | outside math, `$text$` around plain text becomes `\(text\)` with the text kept (escaped in HTML mode); after the next character math mode is closed and nothing is pending |
| ScanProperties.ScanExtendsInput | latex/latex.go:33-36 | the buffer before the sentinel is a prefix of the final buffer |
| ScanProperties.PlainThenComment | latex/latex.go:89-94 | plain text then `%` leaves the text in the buffer and a comment pending |
| ScanProperties.CommentSwallowsSentinel | latex/latex.go:113-116 | a pending comment swallows the sentinel space |
| ScanProperties.CommentAtEnd | latex/latex.go:33-36 | for plain text ending in `%` the sentinel emits nothing |
| ScanProperties.TrimDropsInput | latex/latex.go:47 | as written, plain text ending in `%` loses its own last character |
| ScanProperties.TrimExample | latex/latex.go:47 | `ab%` becomes `a` as written and `ab` with the corrected trim |
| ScanProperties.TrimUndefinedOnComment | latex/latex.go:47 | for the input `%` the buffer is empty and the trim is not defined |
| ScanProperties.FixedTrimKeepsComment | latex/latex.go:47 | the corrected trim keeps plain text ending in `%` whole |
| ScanProperties.FixedTrimKeepsInput | latex/latex.go:47 | the corrected trim never cuts what the input produced |
| ScanProperties.FixedTrimAgrees | latex/latex.go:47 | where the sentinel reached the output, the corrected trim equals the source's |

## Left out

- The log string: Go ranges over the log map in random order. The result's log is the map from message to count that the string is rendered from.
- `unicode.IsLetter` is a library call. `Text.IsLetter` is exact below U+0100; it treats every character at or above U+0100 as a non-letter.
- `tokenType.toString` and the panics of the token accessors are not modelled as behaviour. They are preconditions (`WellFormedToken`, `CarriesInfo`).
- The catalog fields of the state (`commands.commandReplacements`, `customCommands`, `knownMathEnvirons`, `environmentReplacements`) never change after construction. The model reads the catalog functions instead of copying them into the class.
- `latexTransformationInfo.preamble` is a one-line call. It is modelled by calling `Preamble.CreateCustomCommandPreamble` directly.
- The dependency loop ranges over the map it extends. The added commands have no dependencies of their own (`DependencyClosureIdempotent`), so the loop is modelled over the original keys.
- The trim at latex.go:47 slices bytes while the scan reads runes. Strings are character sequences here, and the trim removes the last character.
- The Go map reads of missing keys yield zero values. `DefinitionOf` returns "" for a name without a definition, as the Go map read does.
- The catalog's own `item` entry for `enumerate` is shadowed by the special case and never used (`ItemMeaning`).
- Handler splits that are not in the source:
  - `FinishCommand` is the second half of `handlePrevBackslashOngoing`.
  - `HandleIdle` is the re-dispatch of `handleCharacter` restricted to the two token kinds it can meet there.
  - `CreateCustomCommandPreamble` is split into one method per loop.
  - `ScanInput` and `ScanWithSentinel` are the loop of `TransformLatex`.
- LatexSpec.HandleCharacter: its own contract states only that output grows. Its meaning is stated per token kind by the `LatexProperties` and `ScanProperties` lemmas, and the `Latex` methods are proved equal to it.
- Integer widths: the brace counter and the log counts are unbounded. Go's `int` cannot overflow on any input that fits in memory.

## Findings

| source | as written | input that shows it | evidently intended | confidence | as-written member | corrected member |
|---|---|---|---|---|---|---|
| latex/latex.go:47 | the last character of the buffer is always cut, assuming it is the sentinel space | `ab%` becomes `a` (a trailing comment, an unfinished `\begin{` name or a failing `\mbox` also swallow the sentinel); `%` leaves an empty buffer and the slice panics | remove the sentinel only when its own step emitted it | not executed; follows from the proved lemmas | ScanProperties.TrimDropsInput | ScanProperties.FixedTrimKeepsInput |
