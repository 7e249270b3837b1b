/**
 * The pure steps of src/readthedocs_assistant/commands/migrate_config.py:
 * locating the configuration file in a repository tree, threading a document
 * through a list of migrators, and deciding what to do with the result.
 */
module MigrateConfig {
  import opened Wrappers
  import opened Values
  import opened Migrators

  // ---------------------------------------------------------------------------
  // Locating the configuration file

  /**
   * `re.match(r"^\.?readthedocs.ya?ml$", path)`: an optional leading dot,
   * `readthedocs`, any one character except a newline (the dot in the pattern
   * is not escaped), `y`, an optional `a`, `ml`, and then the end of the
   * string or a single final newline, which Python's `$` also accepts.
   */
  predicate MatchesConfigFilename(path: string)
    ensures MatchesConfigFilename(path) ==> 15 <= |path| <= 18
  {
    var rest := if |path| > 0 && path[0] == '.' then path[1..] else path;
    && |rest| >= 13
    && rest[..11] == "readthedocs"
    && rest[11] != '\n'
    && rest[12] == 'y'
    && MatchesYamlEnding(rest[13..])
  }

  /** The part of the pattern after `y`: `a?ml$`. */
  predicate MatchesYamlEnding(tail: string) {
    var rest := if |tail| > 0 && tail[0] == 'a' then tail[1..] else tail;
    rest == "ml" || rest == "ml\n"
  }

  /** The name the pattern spells out for each choice it leaves open. */
  function ConfigFilename(dot: bool, separator: char, a: bool, newline: bool): string {
    (if dot then "." else "") + (StemWith(separator) + YamlEnding(a, newline))
  }

  /** `readthedocs`, the separator character and `y`. */
  function StemWith(separator: char): string {
    "readthedocs" + [separator] + "y"
  }

  /** An optional `a`, `ml` and an optional final newline. */
  function YamlEnding(a: bool, newline: bool): string {
    (if a then "a" else "") + ("ml" + (if newline then "\n" else ""))
  }

  /** One entry of a git tree listing; `kind` is the entry's `type` field. */
  datatype TreeEntry = TreeEntry(path: string, kind: string)

  predicate IsConfigEntry(entry: TreeEntry) {
    entry.kind == "blob" && MatchesConfigFilename(entry.path)
  }

  /** The selection loop of `find_config`: the first blob whose path matches, or nothing. */
  method FindConfig(tree: seq<TreeEntry>) returns (r: Option<TreeEntry>)
    ensures r.None? <==> forall i :: 0 <= i < |tree| ==> !IsConfigEntry(tree[i])
    ensures r.Some? ==> r.value.kind == "blob" && MatchesConfigFilename(r.value.path)
    ensures r.Some? ==>
              exists i :: 0 <= i < |tree| && tree[i] == r.value && forall j :: 0 <= j < i ==> !IsConfigEntry(tree[j])
  {
    for i := 0 to |tree|
      invariant forall j :: 0 <= j < i ==> !IsConfigEntry(tree[j])
    {
      if tree[i].kind == "blob" && MatchesConfigFilename(tree[i].path) {
        return Some(tree[i]);
      }
    }
    return None;
  }

  // ---------------------------------------------------------------------------
  // Chaining migrators

  /** A migrator's `migrate`: a new document and an applied flag, or the exception it raised. */
  type Migrator<E> = Document -> Result<Step, E>

  /** Puts `flags` in front of the flags of a chain result. */
  function PrependFlags<E>(flags: seq<bool>, r: Result<(Document, seq<bool>), E>): Result<(Document, seq<bool>), E> {
    match r
    case Success(v) => Success((v.0, flags + v.1))
    case Failure(e) => Failure(e)
  }

  lemma PrependNoFlags<E>(r: Result<(Document, seq<bool>), E>)
    ensures PrependFlags([], r) == r
  {
    if r.Success? {
      assert [] + r.value.1 == r.value.1;
    }
  }

  lemma PrependFlagsTwice<E>(a: seq<bool>, b: seq<bool>, r: Result<(Document, seq<bool>), E>)
    ensures PrependFlags(a, PrependFlags(b, r)) == PrependFlags(a + b, r)
  {
    if r.Success? {
      assert a + (b + r.value.1) == (a + b) + r.value.1;
    }
  }

  /** The chain as a recursion: the first migrator runs on `config`, the rest on its output. */
  function Chain<E>(config: Document, migrators: seq<Migrator<E>>): (r: Result<(Document, seq<bool>), E>)
    ensures r.Success? ==> |r.value.1| == |migrators|
    ensures |migrators| == 0 ==> r == Success((config, []))
    decreases |migrators|
  {
    if |migrators| == 0 then Success((config, []))
    else
      match migrators[0](config)
      case Failure(e) => Failure(e)
      case Success(step) => PrependFlags([step.applied], Chain(step.config, migrators[1..]))
  }

  /** `apply_migrators`: the loop that threads the document through the migrators, collecting flags. */
  method ApplyMigrators<E>(config: Document, migrators: seq<Migrator<E>>) returns (r: Result<(Document, seq<bool>), E>)
    ensures r == Chain(config, migrators)
    ensures r.Success? ==> |r.value.1| == |migrators|
  {
    var newConfig := config;
    var applied: seq<bool> := [];
    assert migrators[0..] == migrators;
    PrependNoFlags(Chain(config, migrators));
    for i := 0 to |migrators|
      invariant |applied| == i
      invariant Chain(config, migrators) == PrependFlags(applied, Chain(newConfig, migrators[i..]))
    {
      assert migrators[i..][0] == migrators[i] && migrators[i..][1..] == migrators[i + 1..];
      var outcome := migrators[i](newConfig);
      if outcome.Failure? {
        return Failure(outcome.error);
      }
      PrependFlagsTwice(applied, [outcome.value.applied], Chain(outcome.value.config, migrators[i + 1..]));
      newConfig := outcome.value.config;
      applied := applied + [outcome.value.applied];
    }
    assert applied + [] == applied;
    return Success((newConfig, applied));
  }

  /** Appending a migrator runs it on the document the chain produced and appends its flag. */
  lemma {:induction false} ChainSnoc<E>(config: Document, migrators: seq<Migrator<E>>, last: Migrator<E>)
    ensures Chain(config, migrators + [last]) ==
              match Chain(config, migrators)
              case Failure(e) => Failure(e)
              case Success(v) =>
                match last(v.0)
                case Failure(e) => Failure(e)
                case Success(step) => Success((step.config, v.1 + [step.applied]))
    decreases |migrators|
  {
    if |migrators| == 0 {
      assert migrators + [last] == [last];
      assert [last][1..] == [];
      match last(config)
      case Failure(e) =>
      case Success(step) =>
        assert Chain(config, [last]) == PrependFlags([step.applied], Chain(step.config, []));
        assert [] + [step.applied] == [step.applied] + [];
    } else {
      assert (migrators + [last])[1..] == migrators[1..] + [last];
      match migrators[0](config)
      case Failure(e) =>
      case Success(step) =>
        ChainSnoc(step.config, migrators[1..], last);
        match Chain(step.config, migrators[1..])
        case Failure(e) =>
        case Success(v) =>
          match last(v.0)
          case Failure(e) =>
          case Success(lastStep) =>
            assert [step.applied] + (v.1 + [lastStep.applied]) == ([step.applied] + v.1) + [lastStep.applied];
    }
  }

  /** Running the built-in migration twice: it applies once and the second run reports nothing to do. */
  lemma UseBuildToolsTwice(config: Document)
    requires UseBuildTools(config).Success? && UseBuildTools(config).value.applied
    ensures Chain(config, [UseBuildTools, UseBuildTools])
         == Success((UseBuildTools(config).value.config, [true, false]))
  {
    var out := UseBuildTools(config).value.config;
    UseBuildToolsIdempotent(config);
    var ms: seq<Migrator<Failure>> := [UseBuildTools, UseBuildTools];
    assert ms[1..] == [UseBuildTools];
    assert ms[1..][1..] == [];
    assert Chain(out, ms[1..]) == PrependFlags([false], Chain(out, ms[1..][1..]));
    assert [false] + [] == [false];
    assert Chain(out, ms[1..]) == Success((out, [false]));
    assert Chain(config, ms) == PrependFlags([true], Chain(out, ms[1..]));
    assert [true] + [false] == [true, false];
  }

  // ---------------------------------------------------------------------------
  // Deciding what to do

  /** Python's `any(flags)`. */
  function Any(flags: seq<bool>): (r: bool)
    ensures r <==> exists i :: 0 <= i < |flags| && flags[i]
  {
    if |flags| == 0 then false else flags[0] || Any(flags[1..])
  }

  /** The outcomes of the branches at the end of `migrate_config`. */
  datatype Action =
    | NothingApplied     // no migrator applied
    | AppliedUnchanged   // some migrator applied but the document is unchanged
    | Publish            // fork, branch and commit the new document
    | ShowDiff           // dry run: show the difference instead

  /** The branches at the end of `migrate_config`, comparing the documents with Python's `==`. */
  function Decide(original: Document, migrated: Document, applied: seq<bool>, dryRun: bool): (a: Action)
    ensures a == NothingApplied <==> forall i :: 0 <= i < |applied| ==> !applied[i]
    ensures a == AppliedUnchanged <==>
              (exists i :: 0 <= i < |applied| && applied[i]) && PyEq(Map(migrated), Map(original))
    ensures a == Publish <==>
              (exists i :: 0 <= i < |applied| && applied[i]) && !PyEq(Map(migrated), Map(original)) && !dryRun
    ensures a == ShowDiff <==>
              (exists i :: 0 <= i < |applied| && applied[i]) && !PyEq(Map(migrated), Map(original)) && dryRun
  {
    if !Any(applied) then NothingApplied
    else if Any(applied) && PyEq(Map(migrated), Map(original)) then AppliedUnchanged
    else if !dryRun then Publish
    else ShowDiff
  }

  /** A document that differs only by `True` against `1` counts as unchanged, as it does in Python. */
  lemma DecideComparesLikePython(dryRun: bool)
    ensures Decide(map["x" := Bool(true)], map["x" := Int(1)], [true], dryRun) == AppliedUnchanged
  {
    assert PyEq(map["x" := Int(1)]["x"], map["x" := Bool(true)]["x"]);
  }

  /** With the built-in migration alone, an applied run always leads to a change being published or shown. */
  lemma UseBuildToolsAlwaysChanges(config: Document, dryRun: bool)
    requires UseBuildTools(config).Success?
    ensures Chain(config, [UseBuildTools]).Success?
    ensures var v := Chain(config, [UseBuildTools]).value;
            Decide(config, v.0, v.1, dryRun) ==
              if !UseBuildTools(config).value.applied then NothingApplied
              else if dryRun then ShowDiff
              else Publish
  {
    if UseBuildTools(config).value.applied {
      AppliedChangesConfig(config);
    }
    var ms: seq<Migrator<Failure>> := [UseBuildTools];
    assert ms[1..] == [];
  }

  // ---------------------------------------------------------------------------
  // Facts about the filename pattern

  lemma SplitConcat<T>(p: seq<T>, q: seq<T>)
    ensures (p + q)[..|p|] == p && (p + q)[|p|..] == q
  {
  }

  lemma YamlEndingMatches(a: bool, newline: bool)
    ensures MatchesYamlEnding(YamlEnding(a, newline))
  {
    var ml := "ml" + (if newline then "\n" else "");
    if a {
      assert YamlEnding(a, newline) == "a" + ml;
      SplitConcat("a", ml);
    } else {
      assert YamlEnding(a, newline) == ml;
    }
  }

  lemma StemMatches(separator: char, tail: string)
    ensures var rest := StemWith(separator) + tail;
            |rest| >= 13 && rest[..11] == "readthedocs" && rest[11] == separator && rest[12] == 'y' && rest[13..] == tail
  {
    var stem := StemWith(separator);
    SplitConcat(stem, tail);
    assert |stem| == 13;
    assert stem[..11] == "readthedocs";
    assert (stem + tail)[..11] == stem[..13][..11];
  }

  /** Every name the pattern spells out is matched. */
  lemma SpelledNameMatches(dot: bool, separator: char, a: bool, newline: bool)
    requires separator != '\n'
    ensures MatchesConfigFilename(ConfigFilename(dot, separator, a, newline))
  {
    var rest := StemWith(separator) + YamlEnding(a, newline);
    StemMatches(separator, YamlEnding(a, newline));
    YamlEndingMatches(a, newline);
    var path := ConfigFilename(dot, separator, a, newline);
    if dot {
      SplitConcat(".", rest);
      assert path[0] == '.' && path[1..] == rest;
    } else {
      assert path == rest && rest[0] == 'r';
    }
  }

  /** A matched ending is `YamlEnding` for some choice of `a` and newline. */
  lemma MatchedEndingIsSpelled(tail: string)
    requires MatchesYamlEnding(tail)
    ensures exists a: bool, newline: bool :: tail == YamlEnding(a, newline)
  {
    var a := |tail| > 0 && tail[0] == 'a';
    var ml := if a then tail[1..] else tail;
    var newline := ml == "ml\n";
    assert ml == "ml" + (if newline then "\n" else "");
    if a {
      assert tail == [tail[0]] + tail[1..];
    }
    assert tail == YamlEnding(a, newline);
  }

  /** A name that starts with a matched stem is that stem followed by the rest. */
  lemma MatchedStemIsSpelled(rest: string)
    requires |rest| >= 13 && rest[..11] == "readthedocs" && rest[12] == 'y'
    ensures rest == StemWith(rest[11]) + rest[13..]
  {
    assert rest[..13] == rest[..11] + [rest[11]] + [rest[12]];
    assert rest == rest[..13] + rest[13..];
  }

  /** Every matched name is one the pattern spells out. */
  lemma MatchedNameIsSpelled(path: string)
    requires MatchesConfigFilename(path)
    ensures exists dot: bool, separator: char, a: bool, newline: bool ::
              separator != '\n' && path == ConfigFilename(dot, separator, a, newline)
  {
    var dot := |path| > 0 && path[0] == '.';
    var rest := if dot then path[1..] else path;
    MatchedStemIsSpelled(rest);
    MatchedEndingIsSpelled(rest[13..]);
    var a: bool, newline: bool :| rest[13..] == YamlEnding(a, newline);
    assert path == (if dot then "." else "") + rest by {
      if dot {
        assert path == [path[0]] + path[1..];
      }
    }
    assert path == ConfigFilename(dot, rest[11], a, newline);
  }

  /** The matcher accepts exactly the names the pattern spells out. */
  lemma MatchesConfigFilenameExactly(path: string)
    ensures MatchesConfigFilename(path) <==>
              exists dot: bool, separator: char, a: bool, newline: bool ::
                separator != '\n' && path == ConfigFilename(dot, separator, a, newline)
  {
    if MatchesConfigFilename(path) {
      MatchedNameIsSpelled(path);
    }
    if exists dot: bool, separator: char, a: bool, newline: bool ::
         separator != '\n' && path == ConfigFilename(dot, separator, a, newline) {
      var dot: bool, separator: char, a: bool, newline: bool :|
        separator != '\n' && path == ConfigFilename(dot, separator, a, newline);
      SpelledNameMatches(dot, separator, a, newline);
    }
  }

  lemma ConfigFilenameExamples()
    ensures MatchesConfigFilename(".readthedocs.yaml")
    ensures MatchesConfigFilename("readthedocs.yml")
    ensures MatchesConfigFilename(".readthedocs.yml\n")
    ensures MatchesConfigFilename("readthedocs_yaml")
    ensures !MatchesConfigFilename("docs/.readthedocs.yaml")
    ensures !MatchesConfigFilename(".readthedocs.yaml.bak")
    ensures !MatchesConfigFilename("readthedocs\nyml")
  {
  }
}
