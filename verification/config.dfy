/**
 * src/readthedocs_assistant/config.py: the dumper's key order and the
 * load-then-validate branch.  YAML parsing and the JSON-schema check are not
 * modelled; the schema verdict is a parameter.
 */
module Config {
  import opened Wrappers
  import opened Values
  import opened KeyOrder

  /** The priority list of config.py; nested install-entry keys are listed too. */
  const SortedKeys: seq<string> :=
    ["version", "build", "sphinx", "python", "method", "path", "extra_requirements", "conda", "formats"]

  /** `rtd_key_sorting`: the item's key position, or `None` where `list.index` raises `ValueError`. */
  function RtdKeySorting(item: Item<Value>): (r: Option<nat>)
    ensures r.None? <==> item.0 !in SortedKeys
    ensures r.Some? ==> r.value < |SortedKeys| && SortedKeys[r.value] == item.0
  {
    SortKey(SortedKeys, item)
  }

  /** `RTDDumper.represent_dict_custom_order` applied to the items of one mapping. */
  function RepresentDictCustomOrder(data: seq<Item<Value>>): (r: Representation<Value>)
    ensures r.DefaultOrder? <==> exists i :: 0 <= i < |data| && data[i].0 !in SortedKeys
    ensures r.Ordered? ==> multiset(r.items) == multiset(data)
    ensures r.Ordered? && DistinctKeys(data) ==> Ranked(SortedKeys, r.items) && Ascending(SortedKeys, r.items)
  {
    RepresentDict(SortedKeys, data)
  }

  lemma SortedKeysNoDuplicates()
    ensures NoDuplicates(SortedKeys)
  {
  }

  /** The position of each listed key. */
  lemma SortedKeysRanks()
    ensures Rank(SortedKeys, "version") == 0 && Rank(SortedKeys, "build") == 1
    ensures Rank(SortedKeys, "sphinx") == 2 && Rank(SortedKeys, "python") == 3
    ensures Rank(SortedKeys, "method") == 4 && Rank(SortedKeys, "path") == 5
    ensures Rank(SortedKeys, "extra_requirements") == 6
  {
    SortedKeysNoDuplicates();
    RankOfListedKey(SortedKeys, 0);
    RankOfListedKey(SortedKeys, 1);
    RankOfListedKey(SortedKeys, 2);
    RankOfListedKey(SortedKeys, 3);
    RankOfListedKey(SortedKeys, 4);
    RankOfListedKey(SortedKeys, 5);
    RankOfListedKey(SortedKeys, 6);
  }

  /** The keys of an install entry in the order types.py declares `PythonInstallPath`, and in priority order. */
  lemma InstallEntryKeys(path: Value, installMethod: Value, extras: Value)
    ensures DistinctKeys([("path", path), ("method", installMethod), ("extra_requirements", extras)])
    ensures Ranked(SortedKeys, [("path", path), ("method", installMethod), ("extra_requirements", extras)])
    ensures Ranked(SortedKeys, [("method", installMethod), ("path", path), ("extra_requirements", extras)])
    ensures forall y :: y in [("path", path), ("method", installMethod), ("extra_requirements", extras)]
                    <==> y in [("method", installMethod), ("path", path), ("extra_requirements", extras)]
  {
  }

  lemma InstallEntryAscending(path: Value, installMethod: Value, extras: Value)
    ensures Ranked(SortedKeys, [("method", installMethod), ("path", path), ("extra_requirements", extras)])
    ensures Ascending(SortedKeys, [("method", installMethod), ("path", path), ("extra_requirements", extras)])
  {
    SortedKeysNoDuplicates();
    AscendingAtPositions(SortedKeys, [("method", installMethod), ("path", path), ("extra_requirements", extras)], [4, 5, 6]);
  }

  /** An install entry written as path, method, extra_requirements comes out as method, path, extra_requirements. */
  lemma InstallEntryOrder(path: Value, installMethod: Value, extras: Value)
    ensures RepresentDictCustomOrder([("path", path), ("method", installMethod), ("extra_requirements", extras)])
         == Ordered([("method", installMethod), ("path", path), ("extra_requirements", extras)])
  {
    InstallEntryKeys(path, installMethod, extras);
    InstallEntryAscending(path, installMethod, extras);
    RepresentDictByExample(SortedKeys,
      [("path", path), ("method", installMethod), ("extra_requirements", extras)],
      [("method", installMethod), ("path", path), ("extra_requirements", extras)]);
  }

  /** Top-level keys written in reverse priority order, and in priority order. */
  lemma TopLevelKeys(version: Value, build: Value, sphinx: Value, python: Value)
    ensures DistinctKeys([("python", python), ("sphinx", sphinx), ("build", build), ("version", version)])
    ensures Ranked(SortedKeys, [("python", python), ("sphinx", sphinx), ("build", build), ("version", version)])
    ensures Ranked(SortedKeys, [("version", version), ("build", build), ("sphinx", sphinx), ("python", python)])
    ensures forall y :: y in [("python", python), ("sphinx", sphinx), ("build", build), ("version", version)]
                    <==> y in [("version", version), ("build", build), ("sphinx", sphinx), ("python", python)]
  {
  }

  lemma TopLevelAscending(version: Value, build: Value, sphinx: Value, python: Value)
    ensures Ranked(SortedKeys, [("version", version), ("build", build), ("sphinx", sphinx), ("python", python)])
    ensures Ascending(SortedKeys, [("version", version), ("build", build), ("sphinx", sphinx), ("python", python)])
  {
    SortedKeysNoDuplicates();
    AscendingAtPositions(SortedKeys, [("version", version), ("build", build), ("sphinx", sphinx), ("python", python)], [0, 1, 2, 3]);
  }

  /** Top-level keys come out as version, build, sphinx, python whatever their input order. */
  lemma TopLevelOrder(version: Value, build: Value, sphinx: Value, python: Value)
    ensures RepresentDictCustomOrder([("python", python), ("sphinx", sphinx), ("build", build), ("version", version)])
         == Ordered([("version", version), ("build", build), ("sphinx", sphinx), ("python", python)])
  {
    TopLevelKeys(version, build, sphinx, python);
    TopLevelAscending(version, build, sphinx, python);
    RepresentDictByExample(SortedKeys,
      [("python", python), ("sphinx", sphinx), ("build", build), ("version", version)],
      [("version", version), ("build", build), ("sphinx", sphinx), ("python", python)]);
  }

  /** A mapping whose one unlisted key is `tools`, as in a `build` section, is left to the default representer. */
  lemma UnlistedKeyFallsBack(tools: Value)
    ensures RepresentDictCustomOrder([("version", Int(2)), ("tools", tools)]) == DefaultOrder
  {
    var data := [("version", Int(2)), ("tools", tools)];
    assert data[1].0 == "tools" && "tools" !in SortedKeys;
  }

  /** The exception `load_and_validate_config` lets escape. */
  datatype ValidationError = ValidationError

  /** What `load_and_validate_config` returns: the loaded document and whether it validated. */
  datatype Loaded = Loaded(config: Value, valid: bool)

  /**
   * `load_and_validate_config` once YAML has been parsed into `unvalidated`;
   * `isValid` stands for the schema check of `validate_config`.
   */
  function LoadAndValidateConfig(unvalidated: Value, isValid: Value -> bool, raiseError: bool): (r: Result<Loaded, ValidationError>)
    ensures r.Failure? <==> !isValid(unvalidated) && raiseError
    ensures r.Success? ==> r.value.config == unvalidated
    ensures r.Success? ==> r.value.valid == isValid(unvalidated)
  {
    if isValid(unvalidated) then Success(Loaded(unvalidated, true))
    else if raiseError then Failure(ValidationError)
    else Success(Loaded(unvalidated, false))
  }
}
