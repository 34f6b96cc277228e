/** The environment catalogs: replacements for list environments (with their
    local meaning of `\item`) and the environments that are math environments. */
module Environs {
  import opened Commands

  /** One entry of the environment catalog: the texts replacing `\begin{..}` and
      `\end{..}`, and the commands the environment overrides while innermost. */
  datatype EnvReplacement = EnvReplacement(
    escapeRepl: bool,
    leftRepl: string,
    rightRepl: string,
    innerRepl: map<string, CommandReplacement>)

  function GetEnvReplacements(): map<string, EnvReplacement> {
    map[
      "enumerate" := EnvReplacement(false, "<ol>", "</ol>",
        map["item" := CommandReplacement(false, false, false, "<li>", "")]),
      "itemize" := EnvReplacement(false, "<ul>", "</ul>",
        map["item" := CommandReplacement(false, false, false, "<li>", "")]),
      "description" := EnvReplacement(false, "", "",
        map["item" := CommandReplacement(false, false, true, "", "")])
    ]
  }

  /** The math environments (the source's map only ever answers membership). */
  function GetKnownMathEnvirons(): set<string> {
    {"align", "align*", "aligned", "equation", "equation*"}
  }

  lemma EnvironmentCatalogShape()
    ensures GetEnvReplacements().Keys == {"enumerate", "itemize", "description"}
    ensures forall e :: e in GetEnvReplacements() ==>
      !GetEnvReplacements()[e].escapeRepl && GetEnvReplacements()[e].innerRepl.Keys == {"item"}
    ensures forall e :: e in GetEnvReplacements() ==>
      WellShaped(GetEnvReplacements()[e].innerRepl["item"])
    ensures GetEnvReplacements()["description"].innerRepl["item"].optArgCommand
  {
  }

  /** No replaced environment is a math environment: an environment is either
      replaced or auto-wrapped in `\( \)`, never both. */
  lemma ReplacedAreNotMath()
    ensures GetEnvReplacements().Keys !! GetKnownMathEnvirons()
  {
  }
}
