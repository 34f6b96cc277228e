/** Preamble synthesis after the scan: the used set is closed under the
    catalog's dependencies, the definitions of the used commands are collected in
    catalog order (each logged once), and the collection is rendered. The three
    loops of the source are three methods here. */
module Preamble {
  import opened Commands
  import opened TS = TransformState
  import opened TransformInfo

  /** The state after `CreateCustomCommandPreamble`: the used set closed under
      dependencies and one log entry per included definition; nothing else changes. */
  function AfterPreamble(s: State): State {
    s.(usedCustomCommands := DependencyClosure(s.usedCustomCommands),
       logMap := LogAll(s.logMap, IncludedMessages(PreambleCommands(s.usedCustomCommands))))
  }

  /** The preamble logs "Included definition for c" exactly once for every
      included command and never for another one, and the used set only grows. */
  lemma PreambleLogsOnce(s: State, c: string)
    ensures Count(AfterPreamble(s).logMap, IncludedMessage(c)) ==
      Count(s.logMap, IncludedMessage(c)) + if c in PreambleCommands(s.usedCustomCommands) then 1 else 0
    ensures s.usedCustomCommands <= AfterPreamble(s).usedCustomCommands
  {
    var names := PreambleCommands(s.usedCustomCommands);
    CustomCatalogShape();
    SelectedDistinct(CustomCommandsInOrder(), DependencyClosure(s.usedCustomCommands));
    IncludedMessagesOnce(names, c);
    LogAllCounts(s.logMap, IncludedMessages(names), IncludedMessage(c));
    DependencyClosureIdempotent(s.usedCustomCommands);
  }

  method CreateCustomCommandPreamble(info: TransformationInfo) returns (prelude: string)
    modifies info
    ensures info.Abs() == AfterPreamble(old(info.Abs()))
    ensures prelude == PreambleFor(old(info.usedCustomCommands))
  {
    AddDependencies(info);
    var preludeDefs := CollectDefinitions(info);
    assert info.usedCustomCommands == DependencyClosure(old(info.usedCustomCommands));
    prelude := RenderDefinitions(preludeDefs);
  }

  /** The first loop: every dependency of a used command becomes used. The
      source ranges over the map it extends; the commands it adds have no
      dependencies, so ranging over the original keys gives the same set. */
  method AddDependencies(info: TransformationInfo)
    modifies info
    ensures info.Abs() == old(info.Abs()).(usedCustomCommands := DependencyClosure(old(info.usedCustomCommands)))
  {
    var dependencyMap := CustomCommandDependencies();
    var keys := info.usedCustomCommands;
    var pending := keys;
    while pending != {}
      invariant pending <= keys
      invariant info.usedCustomCommands == keys + AddedDependencies(keys - pending)
      invariant info.Abs() == old(info.Abs()).(usedCustomCommands := info.usedCustomCommands)
      decreases pending
    {
      var comm :| comm in pending;
      ghost var before := info.usedCustomCommands;
      if comm in dependencyMap {
        var dependencies := dependencyMap[comm];
        for j := 0 to |dependencies|
          invariant info.usedCustomCommands == before + set k | 0 <= k < j :: dependencies[k]
          invariant info.Abs() == old(info.Abs()).(usedCustomCommands := info.usedCustomCommands)
        {
          info.usedCustomCommands := info.usedCustomCommands + {dependencies[j]};
        }
        assert (set k | 0 <= k < |dependencies| :: dependencies[k]) == DependenciesOf(comm);
      }
      AddedDependenciesInsert(keys - pending, comm);
      assert keys - (pending - {comm}) == (keys - pending) + {comm};
      pending := pending - {comm};
    }
    assert keys - pending == keys;
  }

  /** The second loop: the definitions of the used commands in catalog order,
      logging each included one. */
  method CollectDefinitions(info: TransformationInfo) returns (preludeDefs: seq<string>)
    modifies info
    ensures preludeDefs == Definitions(CatalogSelection(old(info.usedCustomCommands)))
    ensures info.Abs() == old(info.Abs()).(logMap :=
      LogAll(old(info.logMap), IncludedMessages(CatalogSelection(old(info.usedCustomCommands)))))
  {
    var orderedComms := CustomCommandsInOrder();
    var commandMap := GetCustomCommands();
    ghost var used := info.usedCustomCommands;
    preludeDefs := [];
    ghost var names: seq<string> := [];
    for i := 0 to |orderedComms|
      invariant names == Selected(orderedComms[..i], used)
      invariant preludeDefs == Definitions(names)
      invariant info.Abs() == old(info.Abs()).(logMap := LogAll(old(info.logMap), IncludedMessages(names)))
    {
      SelectedSnoc(orderedComms, i, used);
      CustomCommandInCatalog(i);
      if orderedComms[i] in info.usedCustomCommands {
        var def := commandMap[orderedComms[i]];
        assert def == DefinitionOf(orderedComms[i]);
        DefinitionsSnoc(names, orderedComms[i]);
        IncludedMessagesSnoc(names, orderedComms[i]);
        LogAllSnoc(old(info.logMap), IncludedMessages(names), IncludedMessage(orderedComms[i]));
        preludeDefs := preludeDefs + [def];
        info.Log(IncludedMessage(orderedComms[i]));
        names := names + [orderedComms[i]];
      }
    }
    assert orderedComms[..|orderedComms|] == orderedComms;
  }

  /** The rendering: nothing for no definitions, otherwise each definition and a
      space, inside `\( \)`. */
  method RenderDefinitions(preludeDefs: seq<string>) returns (prelude: string)
    ensures prelude == RenderPreamble(preludeDefs)
  {
    if |preludeDefs| == 0 {
      return "";
    }
    prelude := "\\(";
    for i := 0 to |preludeDefs|
      invariant prelude == "\\(" + JoinDefinitions(preludeDefs[..i])
    {
      assert preludeDefs[..i + 1][..i] == preludeDefs[..i];
      prelude := prelude + preludeDefs[i] + " ";
    }
    assert preludeDefs[..|preludeDefs|] == preludeDefs;
    prelude := prelude + "\\)";
  }
}
