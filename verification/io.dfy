/** src/readthedocs_assistant/io.py: the other dumper, with its own priority list. */
module Io {
  import Config
  import opened Wrappers
  import opened Values
  import opened KeyOrder

  /** The priority list of io.py, which names only top-level keys. */
  const SortedKeys: seq<string> := ["version", "build", "python", "conda", "sphinx", "formats"]

  /** `rtd_key_sorting`: the item's key position, or `None` where `list.index` raises `ValueError`. */
  function RtdKeySorting(item: Item<Value>): (r: Option<nat>)
    ensures r.None? <==> item.0 !in SortedKeys
    ensures r.Some? ==> r.value < |SortedKeys| && SortedKeys[r.value] == item.0
  {
    SortKey(SortedKeys, item)
  }

  /** `RTDDumper.represent_dict_custom_order` applied to the items of one mapping. */
  function RepresentDictCustomOrder(data: seq<Item<Value>>): (r: Representation<Value>)
    ensures r.DefaultOrder? <==> exists i :: 0 <= i < |data| && data[i].0 !in SortedKeys
    ensures r.Ordered? ==> multiset(r.items) == multiset(data)
    ensures r.Ordered? && DistinctKeys(data) ==> Ranked(SortedKeys, r.items) && Ascending(SortedKeys, r.items)
  {
    RepresentDict(SortedKeys, data)
  }

  lemma SortedKeysNoDuplicates()
    ensures NoDuplicates(SortedKeys)
  {
  }

  /** The position of each listed key. */
  lemma SortedKeysRanks()
    ensures Rank(SortedKeys, "version") == 0 && Rank(SortedKeys, "build") == 1
    ensures Rank(SortedKeys, "python") == 2 && Rank(SortedKeys, "conda") == 3
    ensures Rank(SortedKeys, "sphinx") == 4 && Rank(SortedKeys, "formats") == 5
  {
    SortedKeysNoDuplicates();
    RankOfListedKey(SortedKeys, 0);
    RankOfListedKey(SortedKeys, 1);
    RankOfListedKey(SortedKeys, 2);
    RankOfListedKey(SortedKeys, 3);
    RankOfListedKey(SortedKeys, 4);
    RankOfListedKey(SortedKeys, 5);
  }

  /** Here `python` and `conda` precede `sphinx`; config.py puts `sphinx` before `python`. */
  lemma PythonBeforeSphinx()
    ensures Rank(SortedKeys, "python") < Rank(SortedKeys, "sphinx")
    ensures Rank(SortedKeys, "conda") < Rank(SortedKeys, "sphinx")
    ensures Rank(Config.SortedKeys, "sphinx") < Rank(Config.SortedKeys, "python")
  {
    SortedKeysRanks();
    Config.SortedKeysRanks();
  }

  /** Top-level keys written in reverse priority order, and in priority order. */
  lemma TopLevelKeys(version: Value, build: Value, sphinx: Value, python: Value, conda: Value)
    ensures DistinctKeys([("sphinx", sphinx), ("conda", conda), ("python", python), ("build", build), ("version", version)])
    ensures Ranked(SortedKeys, [("sphinx", sphinx), ("conda", conda), ("python", python), ("build", build), ("version", version)])
    ensures Ranked(SortedKeys, [("version", version), ("build", build), ("python", python), ("conda", conda), ("sphinx", sphinx)])
    ensures forall y :: y in [("sphinx", sphinx), ("conda", conda), ("python", python), ("build", build), ("version", version)]
                    <==> y in [("version", version), ("build", build), ("python", python), ("conda", conda), ("sphinx", sphinx)]
  {
  }

  lemma TopLevelAscending(version: Value, build: Value, sphinx: Value, python: Value, conda: Value)
    ensures Ranked(SortedKeys, [("version", version), ("build", build), ("python", python), ("conda", conda), ("sphinx", sphinx)])
    ensures Ascending(SortedKeys, [("version", version), ("build", build), ("python", python), ("conda", conda), ("sphinx", sphinx)])
  {
    SortedKeysNoDuplicates();
    AscendingAtPositions(SortedKeys, [("version", version), ("build", build), ("python", python), ("conda", conda), ("sphinx", sphinx)], [0, 1, 2, 3, 4]);
  }

  /** Top-level keys come out as version, build, python, conda, sphinx whatever their input order. */
  lemma TopLevelOrder(version: Value, build: Value, sphinx: Value, python: Value, conda: Value)
    ensures RepresentDictCustomOrder([("sphinx", sphinx), ("conda", conda), ("python", python), ("build", build), ("version", version)])
         == Ordered([("version", version), ("build", build), ("python", python), ("conda", conda), ("sphinx", sphinx)])
  {
    TopLevelKeys(version, build, sphinx, python, conda);
    TopLevelAscending(version, build, sphinx, python, conda);
    RepresentDictByExample(SortedKeys,
      [("sphinx", sphinx), ("conda", conda), ("python", python), ("build", build), ("version", version)],
      [("version", version), ("build", build), ("python", python), ("conda", conda), ("sphinx", sphinx)]);
  }

  /** Nested mappings such as a `python` section with `install`, or an install entry, use the default representer. */
  lemma NestedMappingsFallBack(install: Value, path: Value, installMethod: Value)
    ensures RepresentDictCustomOrder([("install", install)]) == DefaultOrder
    ensures RepresentDictCustomOrder([("path", path), ("method", installMethod)]) == DefaultOrder
  {
  }
}
