# readthedocs-assistant: the configuration migration core in Dafny

readthedocs-assistant finds a repository's Read the Docs configuration file,
loads and validates it, runs a list of migrators over it, and then does one
of three things:

- reports that nothing applied;
- shows the difference (a dry run);
- publishes the new file through a fork and a branch.

This project models the parts of that flow with real logic:

- **The `use_build_tools` migrator** (`Migrators`). It rewrites the legacy
  `python.version` key into a `build: {os, tools: {python}}` section. Its
  version guard and the Python exceptions it can raise are modelled too.
- **The migration pipeline** (`MigrateConfig`). This covers:
  - the configuration-filename pattern and the `find_config` selection loop;
  - `apply_migrators`, which threads the document through the migrators and
    collects one applied flag per migrator;
  - the final branches that pick between doing nothing, showing a diff and
    publishing.
- **The YAML dumpers' key order** (`KeyOrder`, instantiated by `Config` and
  `Io`). A mapping's items are sorted by their key's position in a fixed
  priority list. If any key is not in the list, `list.index` raises
  `ValueError` and the mapping goes to PyYAML's default representer.
- **`load_and_validate_config`** (`Config`), once the YAML has been parsed.
  The schema verdict is a parameter.
- **The typed dictionaries of `types.py`** (`Types`), as a well-formedness
  predicate over configuration trees.

Configuration trees are a `Value` datatype: null, booleans, integers,
strings, lists and string-keyed maps (`Values`). Dafny's `==` on these
trees ignores key order but is structural, so it keeps `Bool(true)` and
`Int(1)` apart. Python's `==`, which counts `True` as `1` and `False` as `0`
at any depth, is modelled separately as `PyEq`, and the pipeline's "did the
configuration change" test uses it. The order a dumper emits is modelled
separately, on sequences of `(key, value)` items. Python exceptions are the
`Failure` side of a `Result`.

Behaviour of the code worth noting:

- The version guard is `version < 2`, with 1 as the default. An absent
  version, version 0 or 1, and a boolean all raise `MigrationError`. Every
  integer of 2 or more passes.
- A document whose `build` already contains `tools` comes back unchanged with
  `applied = false`.
- When the migrator applies, it replaces the whole earlier `build` section,
  including any `image` and `apt_packages`. The `apt_packages` step reads
  the `build` that was just written and stores the value back into it, so it
  never changes anything.

## Model

| member | source | states |
|---|---|---|
| Migrators.UseBuildTools | src/readthedocs_assistant/migrators.py:14-46 | It raises `MigrationError` exactly when `config.get("version", 1) < 2`. A version that is not an int or bool raises `TypeError`. An existing `build.tools` returns the input unchanged with `applied = false`. An absent `build` always applies. Otherwise `build` becomes `{os: "ubuntu-20.04", tools: {python: <python.version or "3.7">}}`. `python` loses `version` and is dropped when that leaves it empty. Every other key is unchanged. It applies exactly when `"tools" in config.get("build", {})` is false. `TypeError` is raised exactly when the version is not an int or bool, or when the guard passes and `build` is not a container. `AttributeError` is raised exactly when the migrator would otherwise apply and `python` is present but not a mapping. |
| Migrators.LessThan | src/readthedocs_assistant/migrators.py:19 | Python's `<` against an integer is defined exactly for values equal to some integer (booleans count as 0 and 1). It then compares that integer. Every other type raises `TypeError`. |
| Migrators.Contains | src/readthedocs_assistant/migrators.py:22 | Python's `in`: key membership for a mapping, an item equal under `==` for a list, an occurrence at some position for a string. Every other type raises `TypeError`. |
| Migrators.DictGet | src/readthedocs_assistant/migrators.py:30 | `.get` returns the stored value or the default on a mapping. Every other type raises `AttributeError`. |
| Migrators.WithAptPackages | src/readthedocs_assistant/migrators.py:36-37 | Reading `apt_packages` from the build just written and storing it back leaves that build unchanged. |
| Migrators.BuildTools | src/readthedocs_assistant/migrators.py:22 | The `tools` membership test raises exactly when `build` is present but is not a mapping, list or string. An absent `build` has no `tools`. On a mapping, the test is key membership. |
| Migrators.DropPythonVersion | src/readthedocs_assistant/migrators.py:39-44 | `python` stays exactly when keys other than `version` are left, and then holds exactly those. No other key changes. |
| Migrators.UseBuildToolsIdempotent | src/readthedocs_assistant/migrators.py:22-24 | Running the migrator on its own applied output returns that output unchanged and reports that it did not apply. |
| Migrators.AppliedChangesConfig | src/readthedocs_assistant/migrators.py:26-46 | An application always returns a document different from its input, both structurally and under Python's `==`. |
| Migrators.WellFormedFailsOnlyOnVersion | src/readthedocs_assistant/migrators.py:19-20 | On a configuration of the declared shape, the migrator fails exactly when the version is absent or below 2, and then only with `MigrationError`. |
| Migrators.UseBuildToolsPreservesWellFormed | src/readthedocs_assistant/types.py:14-41 | A configuration of the declared `RTDConfig` shape keeps that shape after migration. |
| Migrators.VersionOnlyVector | tests/test_migrators.py:9-14 | `{version: 2}` becomes `{version: 2, build: {os: ubuntu-20.04, tools: {python: "3.7"}}}` and applies. |
| Migrators.PythonVersionVector | tests/test_migrators.py:15-18 | A `python` section holding only `version: "3.8"` moves into `build.tools.python` and disappears. |
| Migrators.PythonInstallVector | tests/test_migrators.py:19-32 | With `python.install` present, `python` keeps `install` and loses `version`. |
| Values.PyEq | src/readthedocs_assistant/commands/migrate_config.py:134 | Python's `==` on configuration trees: booleans equal 0 and 1, mappings need the same keys and equal values, lists need equal items in order, and other values of different types are unequal. |
| Values.PyEqReflexive | src/readthedocs_assistant/commands/migrate_config.py:134 | Every tree equals itself under Python's `==`. |
| Values.PyEqSymmetric | src/readthedocs_assistant/commands/migrate_config.py:134 | Python's `==` on trees is symmetric. |
| Values.PyEqWithoutBools | src/readthedocs_assistant/commands/migrate_config.py:134 | On trees that hold no boolean, Python's `==` is exactly structural equality. |
| Values.PyEqExamples | src/readthedocs_assistant/commands/migrate_config.py:134 | `{x: True}` equals `{x: 1}` and `[False]` equals `[0]`, though they are structurally different. `"1"` does not equal `1`, `None` does not equal `False`, and `{}` does not equal `[]`. |
| Values.HasInfixAtSomePosition | src/readthedocs_assistant/migrators.py:22 | The substring test used for `in` on a string holds exactly when the key occurs at some position. |
| Types.WellFormedTools | src/readthedocs_assistant/types.py:16 | `dict[Tools, str]`: a mapping from the four tool names to strings. |
| Types.WellFormedBuild | src/readthedocs_assistant/types.py:14-18 | `Build`: only `os`, `tools`, `image` and `apt_packages`, each optional and of its declared type. |
| Types.WellFormedInstall | src/readthedocs_assistant/types.py:21-28 | An install entry is exactly a `PythonRequirements` or exactly a `PythonInstallPath`, with every field present. |
| Types.WellFormedPython | src/readthedocs_assistant/types.py:31-34 | `Python`: only `version`, `system_packages` and `install`, each optional and of its declared type. |
| Types.WellFormedConfig | src/readthedocs_assistant/types.py:37-41 | `RTDConfig`: only `version`, `formats`, `build` and `python`, each optional and of its declared type. |
| KeyOrder.Rank | src/readthedocs_assistant/config.py:50-51 | `list.index`: a listed key's position, which is its first occurrence. |
| KeyOrder.SortKey | src/readthedocs_assistant/config.py:50-51 | The sort key is absent (the `ValueError`) exactly for an unlisted key. Otherwise it is the first position holding that key. |
| KeyOrder.Insert | src/readthedocs_assistant/config.py:57 | Inserting into a sequence of ranked items yields that sequence plus the new item, as a multiset, and every item stays ranked. |
| KeyOrder.Sort | src/readthedocs_assistant/config.py:57 | `sorted(items, key=...)` returns a permutation of the items. |
| KeyOrder.InsertAscending | src/readthedocs_assistant/config.py:57 | Inserting an item with a fresh key into a strictly ascending sequence keeps it strictly ascending. |
| KeyOrder.SortAscending | src/readthedocs_assistant/config.py:57 | A dictionary's items (distinct keys) come out of the sort in strictly increasing priority position. |
| KeyOrder.RepresentDict | src/readthedocs_assistant/config.py:55-62 | The default representer is used exactly when some key is unlisted. Otherwise the emitted items are a permutation of the input, in strictly ascending priority order. |
| KeyOrder.AscendingUnique | src/readthedocs_assistant/config.py:57 | Two ascending arrangements of the same items are equal, so the emitted order is determined. |
| KeyOrder.PriorityWalk | src/readthedocs_assistant/config.py:20-25 | The reference order, read off the priority list: every item it emits is an entry of the mapping under a listed key. |
| KeyOrder.PriorityWalkComplete | src/readthedocs_assistant/config.py:20-25 | The reference order emits every entry whose key is listed. |
| KeyOrder.PriorityWalkAscending | src/readthedocs_assistant/config.py:20-25 | The reference order is strictly ascending in priority position. |
| KeyOrder.RepresentDictIsPriorityWalk | src/readthedocs_assistant/config.py:55-62 | For every enumeration order of a dictionary's items, the dumper emits exactly the reference order when all keys are listed, and falls back otherwise. The output depends on the mapping alone. |
| KeyOrder.RepresentDictIdempotent | src/readthedocs_assistant/config.py:55-62 | Representing already-emitted items again gives the same result. |
| KeyOrder.RepresentDictByExample | src/readthedocs_assistant/config.py:55-58 | Any strictly ascending arrangement of the input items is the one emitted. |
| Config.RtdKeySorting | src/readthedocs_assistant/config.py:50-51 | `rtd_key_sorting` raises exactly for keys outside `SORTED_KEYS`. Otherwise it returns a position that holds the key. |
| Config.RepresentDictCustomOrder | src/readthedocs_assistant/config.py:54-62 | The fallback happens exactly when some key is outside `SORTED_KEYS`. Otherwise the output is a permutation in `SORTED_KEYS` order. |
| Config.SortedKeysNoDuplicates | src/readthedocs_assistant/config.py:25 | The priority list repeats no key. |
| Config.SortedKeysRanks | src/readthedocs_assistant/config.py:25 | The positions of `version`, `build`, `sphinx`, `python`, `method`, `path` and `extra_requirements` are 0 to 6. |
| Config.InstallEntryOrder | src/readthedocs_assistant/config.py:25 | An install entry written as path, method, extra_requirements is emitted as method, path, extra_requirements. |
| Config.TopLevelOrder | src/readthedocs_assistant/config.py:20-25 | Top-level keys given in reverse come out as version, build, sphinx, python. |
| Config.UnlistedKeyFallsBack | src/readthedocs_assistant/config.py:59-62 | A mapping whose one unlisted key is `tools`, as in a `build` section, goes to the default representer. |
| Config.LoadAndValidateConfig | src/readthedocs_assistant/config.py:68-81 | It raises exactly when the document is invalid and `raise_error` is set. Otherwise it returns the loaded document unchanged with its validity flag. |
| Io.RtdKeySorting | src/readthedocs_assistant/io.py:9-10 | `io.py`'s key function raises exactly for keys outside its own list. |
| Io.RepresentDictCustomOrder | src/readthedocs_assistant/io.py:13-21 | The fallback happens exactly when some key is outside `io.py`'s list. Otherwise the output is a permutation in that list's order. |
| Io.SortedKeysNoDuplicates | src/readthedocs_assistant/io.py:6 | `io.py`'s priority list repeats no key. |
| Io.SortedKeysRanks | src/readthedocs_assistant/io.py:6 | The positions of `version`, `build`, `python`, `conda`, `sphinx` and `formats` are 0 to 5. |
| Io.PythonBeforeSphinx | src/readthedocs_assistant/io.py:6 | `io.py` ranks `python` and `conda` before `sphinx`, while `config.py` ranks `sphinx` before `python`. |
| Io.TopLevelOrder | src/readthedocs_assistant/io.py:3-6 | Top-level keys given in reverse come out as version, build, python, conda, sphinx. |
| Io.NestedMappingsFallBack | src/readthedocs_assistant/io.py:18-21 | A `python` section with `install`, and an install entry, go to the default representer under `io.py`'s list. |
| MigrateConfig.MatchesConfigFilename | src/readthedocs_assistant/commands/migrate_config.py:24 | `re.match` of the configuration-file pattern, with the unescaped `.` matching any character but a newline and `$` also accepting one final newline. A matched path has 15 to 18 characters. |
| MigrateConfig.IsConfigEntry | src/readthedocs_assistant/commands/migrate_config.py:32 | The loop's test: the entry is a blob and its path matches the pattern. |
| MigrateConfig.MatchesConfigFilenameExactly | src/readthedocs_assistant/commands/migrate_config.py:24 | A path matches `^\.?readthedocs.ya?ml$` exactly when it is spelled as an optional `.`, `readthedocs`, one non-newline character, `y`, an optional `a`, `ml` and an optional final newline. |
| MigrateConfig.SpelledNameMatches | src/readthedocs_assistant/commands/migrate_config.py:24 | Every spelling the pattern allows is matched. |
| MigrateConfig.MatchedNameIsSpelled | src/readthedocs_assistant/commands/migrate_config.py:24 | Every matched path is one of those spellings. |
| MigrateConfig.ConfigFilenameExamples | src/readthedocs_assistant/commands/migrate_config.py:24 | These match: `.readthedocs.yaml`, `readthedocs.yml`, a trailing newline, and `readthedocs_yaml` (the dot is not escaped). These do not: paths in subdirectories, extra suffixes, and a newline as the separator. |
| MigrateConfig.FindConfig | src/readthedocs_assistant/commands/migrate_config.py:27-34 | It finds nothing exactly when no entry is a blob with a matching path. Otherwise it returns the first such entry. |
| MigrateConfig.Chain | src/readthedocs_assistant/commands/migrate_config.py:43-54 | A successful chain collects one flag per migrator. An empty chain returns the input with no flags. |
| MigrateConfig.ApplyMigrators | src/readthedocs_assistant/commands/migrate_config.py:43-54 | The loop computes the recursive chain: the first exception stops it, and otherwise it returns the last document and one flag per migrator. |
| MigrateConfig.ChainSnoc | src/readthedocs_assistant/commands/migrate_config.py:48-52 | Appending a migrator runs it on the chain's output and appends its flag. |
| MigrateConfig.UseBuildToolsTwice | src/readthedocs_assistant/commands/migrate_config.py:43-54 | Chaining the built-in migrator twice applies once, and the flags are `[true, false]`. |
| MigrateConfig.Any | src/readthedocs_assistant/commands/migrate_config.py:132 | `any(flags)` holds exactly when some flag is true. |
| MigrateConfig.Decide | src/readthedocs_assistant/commands/migrate_config.py:132-161 | There are four outcomes, each with both directions stated: nothing applied; applied but unchanged; changed and published; changed and diffed in a dry run. "Unchanged" is Python's `==` (`PyEq`) on the two documents. |
| MigrateConfig.DecideComparesLikePython | src/readthedocs_assistant/commands/migrate_config.py:134 | A migrated document that differs from the original only by `1` in place of `True` counts as unchanged. |
| MigrateConfig.UseBuildToolsAlwaysChanges | src/readthedocs_assistant/commands/migrate_config.py:129-161 | With the built-in migrator alone, an applied run is never "applied but unchanged". It is published, or diffed in a dry run. |

## Left out

- Network and hosting-service calls are not part of this model: listing the
  repository tree, fetching and updating file contents, forking, creating the
  branch and fetching the comparison URL (`fork_and_update`, `github.py`).
  The tree listing is an input to `FindConfig`.
- The command-line entry points (`cli.py`) and the logging setup are not part
  of this model.
- Fetching the JSON schema (`_get_schema`) and `jsonschema.validate`
  (`validate_config`, `validation.py`) are left out. They are a
  network fetch and a foreign library. `LoadAndValidateConfig` takes the
  verdict as a function parameter instead.
- YAML parsing and emission are left out. The model starts from the parsed
  tree, and represents the dumper's output as the ordered item sequence it
  passes to `represent_dict`. PyYAML's default representer is the
  `DefaultOrder` outcome, without its own key ordering.
- `compare_strings` (the `difflib` text diff) is left out. The dry-run branch
  is the `ShowDiff` outcome.
- `async`/`await` is left out: every step runs sequentially and nothing is
  shared between flows.
- In-place mutation is left out. `use_build_tools` copies the top-level dict
  shallowly, so `pop("version")` also removes `version` from the caller's
  `python` section. The model describes only the returned document. The
  decision after the migrators is unaffected: an application always
  rewrites `build`, which the caller's dictionary does not share.
- Floats, non-string keys and other YAML scalar types are not values of the
  model. The version guard is modelled for integers, booleans and the
  `TypeError` of every other type.
- The `migrate_config` coroutine calls `load_and_validate_config` with one
  argument at line 123. That call cannot succeed as written, since
  `raise_error` has no default. `Decide` takes the loaded document as an
  input, which is the evident intent.
- Migrator classes and a registry do not exist in the code: `migrate_config.py`
  imports a `Migrator` name that `migrators.py` does not define. A migrator is
  modelled as any function from a document to a result, with
  `Migrators.UseBuildTools` as the one built-in instance.
- The `TODO` about erroring when several configuration files exist is not
  behaviour. `FindConfig` returns the first match, as the loop does.
