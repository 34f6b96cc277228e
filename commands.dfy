/** The command catalogs of the transformer and the pure description of the
    custom-command preamble: which definitions are selected after the one-level
    dependency closure, in which order, and how they are rendered. */
module Commands {

  /** One entry of the replacement catalog. `argCommand`: the command takes a
      brace argument, `optArgCommand`: it takes a bracket argument, neither: it is
      replaced on its own. */
  datatype CommandReplacement = CommandReplacement(
    escapeRepl: bool,
    argCommand: bool,
    optArgCommand: bool,
    leftRepl: string,
    rightRepl: string)

  /** Custom commands: passed through verbatim and defined in the preamble. */
  function GetCustomCommands(): map<string, string> {
    map name | name in {"abs", "norm", "energynorm", "normone", "normtwo", "norminf"} :: CustomDefinition(name)
  }

  function CustomDefinition(name: string): string {
    match name
    case "abs" => "\\newcommand{\\abs}[1]{\\left|#1\\right|}"
    case "norm" => "\\newcommand{\\norm}[1]{\\left|\\!\\left|#1\\right|\\!\\right|}"
    case "energynorm" => "\\newcommand{\\energynorm}[1]{\\left|\\!\\left|\\!\\left|#1\\right|\\!\\right|\\!\\right|}"
    case "normone" => "\\newcommand{\\normone}[1]{\\norm{#1}_1}"
    case "normtwo" => "\\newcommand{\\normtwo}[1]{\\norm{#1}_2}"
    case _ => "\\newcommand{\\norminf}[1]{\\norm{#1}_\\infty}"
  }

  /** The order in which definitions appear in the preamble. */
  function CustomCommandsInOrder(): seq<string> {
    ["abs", "norm", "energynorm", "normone", "normtwo", "norminf"]
  }

  /** Custom commands whose definitions use another custom command. */
  function CustomCommandDependencies(): map<string, seq<string>> {
    map[
      "energynorm" := ["norm"],
      "normone" := ["norm"],
      "normtwo" := ["norm"],
      "norminf" := ["norm"]
    ]
  }

  /** Built-in replacements, valid in every environment. */
  function GetCommandReplacements(): map<string, CommandReplacement> {
    map[
      "R" := CommandReplacement(true, false, false, "\\mathbb{R}", ""),
      "mbox" := CommandReplacement(true, true, false, "{", "}"),
      "Tilde" := CommandReplacement(true, true, false, "\\tilde{", "}"),
      "intertext" := CommandReplacement(true, true, false, "\\text{", "}\\\\ ")
    ]
  }

  /** At most one of the two argument kinds, and a zero-argument replacement
      always has a left text (the scanner drops its first character). */
  predicate WellShaped(r: CommandReplacement) {
    && !(r.argCommand && r.optArgCommand)
    && (!r.argCommand && !r.optArgCommand ==> |r.leftRepl| >= 1)
  }

  lemma CommandCatalogShape()
    ensures GetCommandReplacements().Keys == {"R", "mbox", "Tilde", "intertext"}
    ensures var m := GetCommandReplacements();
      && !m["R"].argCommand && !m["R"].optArgCommand
      && m["mbox"].argCommand && m["Tilde"].argCommand && m["intertext"].argCommand
    ensures forall k :: k in GetCommandReplacements() ==> WellShaped(GetCommandReplacements()[k])
  {
  }

  /** Every name of the preamble order has a definition. */
  lemma CustomCommandInCatalog(i: int)
    requires 0 <= i < |CustomCommandsInOrder()|
    ensures CustomCommandsInOrder()[i] in GetCustomCommands()
  {
  }

  lemma CustomCatalogShape()
    ensures GetCustomCommands().Keys == set c | c in CustomCommandsInOrder()
    ensures CustomCommandDependencies().Keys <= GetCustomCommands().Keys
    ensures forall i, j :: 0 <= i < j < |CustomCommandsInOrder()| ==>
      CustomCommandsInOrder()[i] != CustomCommandsInOrder()[j]
  {
  }

  // ---------------------------------------------------------------------
  // The preamble

  /** The dependencies the catalog declares for `c`, as a set. */
  function DependenciesOf(c: string): set<string> {
    if c in CustomCommandDependencies() then set d | d in CustomCommandDependencies()[c] else {}
  }

  /** The used set after the first loop of the preamble: every used command's
      dependencies are added, one level deep. */
  function DependencyClosure(used: set<string>): set<string> {
    used + AddedDependencies(used)
  }

  /** Every dependency of some command of `used`. */
  function AddedDependencies(used: set<string>): set<string> {
    set c, d | c in used && d in DependenciesOf(c) :: d
  }

  /** The dependencies added for one more command are that command's own. */
  lemma AddedDependenciesInsert(used: set<string>, c: string)
    ensures AddedDependencies(used + {c}) == AddedDependencies(used) + DependenciesOf(c)
  {
    forall d | d in AddedDependencies(used + {c})
      ensures d in AddedDependencies(used) + DependenciesOf(c)
    {
      var c' :| c' in used + {c} && d in DependenciesOf(c');
      if c' != c {
        assert c' in used;
      }
    }
  }

  /** The entries of `order` that are in `used`, in the order of `order`. */
  function Selected(order: seq<string>, used: set<string>): seq<string> {
    if order == [] then []
    else Selected(order[..|order| - 1], used)
         + (if order[|order| - 1] in used then [order[|order| - 1]] else [])
  }

  /** The catalog entry for `name`, read as Go reads a map: a name without an
      entry gives the empty string. */
  function DefinitionOf(name: string): string {
    if name in GetCustomCommands() then GetCustomCommands()[name] else ""
  }

  /** The definitions of a list of custom-command names. */
  function Definitions(names: seq<string>): (defs: seq<string>)
    ensures |defs| == |names|
    ensures forall i :: 0 <= i < |names| ==> defs[i] == DefinitionOf(names[i])
  {
    if names == [] then []
    else Definitions(names[..|names| - 1]) + [DefinitionOf(names[|names| - 1])]
  }

  /** Each definition followed by one space. */
  function JoinDefinitions(defs: seq<string>): string {
    if defs == [] then "" else JoinDefinitions(defs[..|defs| - 1]) + defs[|defs| - 1] + " "
  }

  /** Nothing at all for no definitions, otherwise the definitions inside `\( \)`. */
  function RenderPreamble(defs: seq<string>): string {
    if |defs| == 0 then "" else "\\(" + JoinDefinitions(defs) + "\\)"
  }

  /** The used catalog commands, in catalog order. */
  function CatalogSelection(used: set<string>): seq<string> {
    Selected(CustomCommandsInOrder(), used)
  }

  /** The names whose definitions the preamble includes for a used set. */
  function PreambleCommands(used: set<string>): seq<string> {
    CatalogSelection(DependencyClosure(used))
  }

  /** The preamble string for a used set. */
  function PreambleFor(used: set<string>): string {
    RenderPreamble(Definitions(PreambleCommands(used)))
  }

  /** The message logged for every included definition. */
  function IncludedMessage(c: string): string {
    "Included definition for " + c
  }

  /** The messages logged for a list of included names, in order. */
  function IncludedMessages(names: seq<string>): (msgs: seq<string>)
    ensures |msgs| == |names|
    ensures forall i :: 0 <= i < |names| ==> msgs[i] == IncludedMessage(names[i])
  {
    if names == [] then []
    else IncludedMessages(names[..|names| - 1]) + [IncludedMessage(names[|names| - 1])]
  }

  /** Different names give different messages. */
  lemma IncludedMessageInjective(a: string, b: string)
    requires IncludedMessage(a) == IncludedMessage(b)
    ensures a == b
  {
    var p := "Included definition for ";
    assert a == IncludedMessage(a)[|p|..];
    assert b == IncludedMessage(b)[|p|..];
  }

  /** In the messages of names without repetitions, the message of `c` occurs
      once when `c` is one of the names, and not at all otherwise. */
  lemma {:induction false} IncludedMessagesOnce(names: seq<string>, c: string)
    requires forall i, j :: 0 <= i < j < |names| ==> names[i] != names[j]
    ensures multiset(IncludedMessages(names))[IncludedMessage(c)] == if c in names then 1 else 0
  {
    if names != [] {
      var init := names[..|names| - 1];
      var last := names[|names| - 1];
      assert names == init + [last];
      IncludedMessagesOnce(init, c);
      if IncludedMessage(last) == IncludedMessage(c) {
        IncludedMessageInjective(last, c);
        assert c !in init by {
          forall i | 0 <= i < |init| ensures init[i] != c {
            assert init[i] == names[i];
          }
        }
      } else {
        assert last != c;
      }
    }
  }
  lemma SelectedSnoc(order: seq<string>, i: int, used: set<string>)
    requires 0 <= i < |order|
    ensures Selected(order[..i + 1], used) ==
      Selected(order[..i], used) + if order[i] in used then [order[i]] else []
  {
    assert order[..i + 1][..i] == order[..i];
  }

  lemma DefinitionsSnoc(names: seq<string>, n: string)
    ensures Definitions(names + [n]) == Definitions(names) + [DefinitionOf(n)]
  {
    assert (names + [n])[..|names|] == names;
  }

  lemma IncludedMessagesSnoc(names: seq<string>, n: string)
    ensures IncludedMessages(names + [n]) == IncludedMessages(names) + [IncludedMessage(n)]
  {
    assert (names + [n])[..|names|] == names;
  }

  /** `Selected` keeps exactly the used entries of the order. */
  lemma {:induction false} SelectedMembers(order: seq<string>, used: set<string>)
    ensures forall x :: x in Selected(order, used) <==> x in order && x in used
  {
    if order != [] {
      var init := order[..|order| - 1];
      SelectedMembers(init, used);
      assert order == init + [order[|order| - 1]];
    }
  }

  /** A selection from an order without repetitions has no repetitions. */
  lemma {:induction false} SelectedDistinct(order: seq<string>, used: set<string>)
    requires forall i, j :: 0 <= i < j < |order| ==> order[i] != order[j]
    ensures forall i, j :: 0 <= i < j < |Selected(order, used)| ==>
      Selected(order, used)[i] != Selected(order, used)[j]
  {
    if order != [] {
      var init := order[..|order| - 1];
      var last := order[|order| - 1];
      SelectedDistinct(init, used);
      SelectedMembers(init, used);
      assert last !in init by {
        forall i | 0 <= i < |init| ensures init[i] != last {
          assert init[i] == order[i];
        }
      }
    }
  }

  /** The closure under the catalog's dependencies: what the two nested loops
      of the preamble add is exactly `norm`, when some norm variant is used. */
  lemma DependencyClosureExplicit(used: set<string>)
    ensures DependencyClosure(used) ==
      used + (if used * {"energynorm", "normone", "normtwo", "norminf"} != {} then {"norm"} else {})
  {
    var added := set c, d | c in used && d in DependenciesOf(c) :: d;
    var variants := {"energynorm", "normone", "normtwo", "norminf"};
    forall d | d in added ensures d == "norm" && used * variants != {} {
      var c :| c in used && d in DependenciesOf(c);
      assert c in variants;
      assert c in used * variants;
    }
    if used * variants != {} {
      var c :| c in used * variants;
      assert "norm" in DependenciesOf(c);
      assert "norm" in added;
    }
    assert added == (if used * variants != {} then {"norm"} else {});
  }

  /** The used set only grows, and one level of expansion is enough: the
      dependencies have no dependencies of their own. */
  lemma DependencyClosureIdempotent(used: set<string>)
    ensures used <= DependencyClosure(used)
    ensures DependencyClosure(DependencyClosure(used)) == DependencyClosure(used)
  {
    DependencyClosureExplicit(used);
    DependencyClosureExplicit(DependencyClosure(used));
  }

  /** Every used norm variant brings the definition of `norm` into the preamble. */
  lemma VariantIncludesNorm(used: set<string>, c: string)
    requires c in used && c in CustomCommandDependencies()
    ensures "norm" in PreambleCommands(used)
    ensures GetCustomCommands()["norm"] in Definitions(PreambleCommands(used))
  {
    DependencyClosureExplicit(used);
    SelectedMembers(CustomCommandsInOrder(), DependencyClosure(used));
    var names := PreambleCommands(used);
    var i :| 0 <= i < |names| && names[i] == "norm";
    assert Definitions(names)[i] == DefinitionOf("norm");
  }

  /** The selection in catalog order, written out: only used commands, each at
      most once, in the order abs, norm, energynorm, normone, normtwo, norminf. */
  lemma SelectedInCatalogOrder(used: set<string>)
    ensures Selected(CustomCommandsInOrder(), used) ==
      (if "abs" in used then ["abs"] else [])
      + (if "norm" in used then ["norm"] else [])
      + (if "energynorm" in used then ["energynorm"] else [])
      + (if "normone" in used then ["normone"] else [])
      + (if "normtwo" in used then ["normtwo"] else [])
      + (if "norminf" in used then ["norminf"] else [])
  {
    var o := CustomCommandsInOrder();
    var o1, o2, o3, o4, o5 := o[..1], o[..2], o[..3], o[..4], o[..5];
    assert o1[..0] == [] && o2[..1] == o1 && o3[..2] == o2 && o4[..3] == o3 && o5[..4] == o4 && o[..5] == o5;
    assert Selected(o1, used) == (if "abs" in used then ["abs"] else []);
    assert Selected(o2, used) == Selected(o1, used) + (if "norm" in used then ["norm"] else []);
    assert Selected(o3, used) == Selected(o2, used) + (if "energynorm" in used then ["energynorm"] else []);
    assert Selected(o4, used) == Selected(o3, used) + (if "normone" in used then ["normone"] else []);
    assert Selected(o5, used) == Selected(o4, used) + (if "normtwo" in used then ["normtwo"] else []);
  }

  /** The preamble is empty exactly when no catalog command is selected after
      the dependency closure. */
  lemma PreambleEmptyIff(used: set<string>)
    ensures PreambleFor(used) == "" <==>
      forall c :: c in CustomCommandsInOrder() ==> c !in DependencyClosure(used)
  {
    SelectedMembers(CustomCommandsInOrder(), DependencyClosure(used));
    var names := PreambleCommands(used);
    if names != [] {
      assert names[0] in names;
    }
  }

  /** Without used commands there is nothing to include. */
  lemma NothingUsed()
    ensures PreambleCommands({}) == [] && PreambleFor({}) == ""
  {
    SelectedMembers(CustomCommandsInOrder(), DependencyClosure({}));
    PreambleEmptyIff({});
  }

  /** Joining distributes over concatenation of the definition lists. */
  lemma {:induction false} JoinDefinitionsConcat(a: seq<string>, b: seq<string>)
    ensures JoinDefinitions(a + b) == JoinDefinitions(a) + JoinDefinitions(b)
    decreases |b|
  {
    if b == [] {
      assert a + b == a;
    } else {
      var init := b[..|b| - 1];
      assert (a + b)[..|a + b| - 1] == a + init;
      assert (a + b)[|a + b| - 1] == b[|b| - 1];
      JoinDefinitionsConcat(a, init);
    }
  }

  /** No definitions join to nothing, and in the joined text every definition
      is followed by exactly one space: the i-th definition and its space sit
      between the join of those before it and the join of those after it. A
      non-empty preamble is the joined text between `\(` and `\)`. */
  lemma JoinDefinitionsSpaces(defs: seq<string>)
    ensures JoinDefinitions([]) == ""
    ensures forall i :: 0 <= i < |defs| ==>
      JoinDefinitions(defs) == JoinDefinitions(defs[..i]) + defs[i] + " " + JoinDefinitions(defs[i + 1..])
    ensures defs != [] ==> RenderPreamble(defs) == "\\(" + JoinDefinitions(defs) + "\\)"
  {
    forall i | 0 <= i < |defs|
      ensures JoinDefinitions(defs) == JoinDefinitions(defs[..i]) + defs[i] + " " + JoinDefinitions(defs[i + 1..])
    {
      SplitAround(defs, i);
      JoinAround(defs[..i], defs[i], defs[i + 1..]);
    }
  }

  /** A definition and its space, between the joins of the lists around it. */
  lemma JoinAround(before: seq<string>, def: string, after: seq<string>)
    ensures JoinDefinitions(before + [def] + after)
         == JoinDefinitions(before) + def + " " + JoinDefinitions(after)
  {
    JoinDefinitionsConcat(before + [def], after);
    assert (before + [def])[..|before|] == before;
  }

  /** A list is what comes before position i, the element at i, and what
      comes after it. */
  lemma SplitAround<T>(xs: seq<T>, i: nat)
    requires i < |xs|
    ensures xs[..i] + [xs[i]] + xs[i + 1..] == xs
  {
    assert xs[..i] + [xs[i]] == xs[..i + 1];
  }
}
