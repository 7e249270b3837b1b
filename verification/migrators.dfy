/**
 * The `use_build_tools` migration of src/readthedocs_assistant/migrators.py:
 * it replaces the legacy `python.version` declaration by a
 * `build: {os, tools: {python}}` section.
 */
module Migrators {
  import opened Wrappers
  import opened Values
  import opened Types

  /** The exceptions `use_build_tools` can raise. */
  datatype Failure =
    | MigrationError   // the configuration still uses version 1
    | TypeError        // `<` or `in` applied to a value of the wrong type
    | AttributeError   // `.get` called on a `python` section that is not a mapping

  /** What a migrator returns: the new configuration and whether it applied. */
  datatype Step = Step(config: Document, applied: bool)

  /**
   * Python's `v < bound` against an integer: it is defined exactly for the
   * values that equal some integer (booleans count as 0 and 1), and other
   * types raise.
   */
  function LessThan(v: Value, bound: int): (r: Result<bool, Failure>)
    ensures r.Failure? <==> forall n :: !PyEq(v, Int(n))
    ensures r.Failure? ==> r.error == TypeError
    ensures forall n :: PyEq(v, Int(n)) ==> r == Success(n < bound)
  {
    match v
    case Int(i) =>
      assert PyEq(v, Int(i));
      Success(i < bound)
    case Bool(b) =>
      assert PyEq(v, Int(if b then 1 else 0));
      Success((if b then 1 else 0) < bound)
    case _ => Failure(TypeError)
  }

  /**
   * Python's `key in container`: key membership for a mapping, an equal item
   * for a list, a substring for a string; other types raise.
   */
  function Contains(container: Value, key: string): (r: Result<bool, Failure>)
    ensures r.Failure? <==> !(container.Map? || container.List? || container.Str?)
    ensures r.Failure? ==> r.error == TypeError
    ensures container.Map? ==> r == Success(key in container.fields)
    ensures container.List? ==>
              r == Success(exists i :: 0 <= i < |container.items| && PyEq(container.items[i], Str(key)))
    ensures container.Str? ==> r == Success(exists i :: OccursAt(container.s, key, i))
  {
    match container
    case Map(m) => Success(key in m)
    case List(xs) => Success(Str(key) in xs)
    case Str(s) =>
      HasInfixAtSomePosition(s, key);
      Success(HasInfix(s, key))
    case _ => Failure(TypeError)
  }

  /** `v.get(key, default)`, which only a mapping supports. */
  function DictGet(v: Value, key: string, default: Value): (r: Result<Value, Failure>)
    ensures r.Failure? <==> !v.Map?
    ensures r.Failure? ==> r.error == AttributeError
    ensures v.Map? && key in v.fields ==> r == Success(v.fields[key])
    ensures v.Map? && key !in v.fields ==> r == Success(default)
  {
    match v
    case Map(m) => Success(GetOr(m, key, default))
    case _ => Failure(AttributeError)
  }

  /** The `build` section the migration writes for a given python version. */
  function FreshBuild(pythonVersion: Value): Value {
    Map(map["os" := Str("ubuntu-20.04"), "tools" := Map(map["python" := pythonVersion])])
  }

  /** `config.get("version", 1) < 2` holds: version 1, an absent version, or a boolean. */
  predicate VersionBelowTwo(config: Document) {
    || "version" !in config
    || (config["version"].Int? && config["version"].i < 2)
    || config["version"].Bool?
  }

  /** `config.get("version", 1) < 2` can be evaluated without a `TypeError`. */
  predicate VersionComparable(config: Document) {
    "version" !in config || config["version"].Int? || config["version"].Bool?
  }

  /** The keys of the `python` section when it is a mapping, and none otherwise. */
  function PythonSection(config: Document): map<string, Value> {
    if "python" in config && config["python"].Map? then config["python"].fields else map[]
  }

  /**
   * The `apt_packages` step: it reads `apt_packages` from the build just
   * written and stores the value back into that same build, so it never
   * changes anything, and the packages of an earlier `build` are lost.
   */
  function WithAptPackages(written: Value): (r: Value)
    ensures r == written
  {
    match written
    case Map(fields) =>
      var aptPackages := GetOr(fields, "apt_packages", List([]));
      if Truthy(aptPackages) then
        assert "apt_packages" in fields && fields["apt_packages" := aptPackages] == fields;
        Map(fields["apt_packages" := aptPackages])
      else written
    case _ => written
  }

  /** Deletes `python.version`, then the whole `python` entry if that left it empty. */
  function DropPythonVersion(doc: Document): (r: Document)
    requires "python" in doc ==> doc["python"].Map?
    ensures "python" in r <==> "python" in doc && doc["python"].fields.Keys - {"version"} != {}
    ensures "python" in r ==> r["python"] == Map(doc["python"].fields - {"version"})
    ensures forall k :: k != "python" ==> (k in r <==> k in doc)
    ensures forall k :: k != "python" && k in r ==> r[k] == doc[k]
  {
    if "python" in doc then
      var section := doc["python"].fields - {"version"};
      if section == map[] then doc - {"python"}
      else
        assert section.Keys != {} by {
          var k :| k in section;
        }
        doc["python" := Map(section)]
    else doc
  }

  /** `"tools" in config.get("build", {})`, which raises unless `build` is absent, a mapping, a list or a string. */
  function BuildTools(config: Document): (r: Result<bool, Failure>)
    ensures r.Failure? <==> "build" in config && !(config["build"].Map? || config["build"].List? || config["build"].Str?)
    ensures "build" !in config ==> r == Success(false)
    ensures "build" in config && config["build"].Map? ==> r == Success("tools" in config["build"].fields)
  {
    Contains(GetOr(config, "build", Map(map[])), "tools")
  }

  function UseBuildTools(config: Document): (r: Result<Step, Failure>)
    // The version guard.
    ensures r == Failure(MigrationError) <==> VersionBelowTwo(config)
    ensures !VersionComparable(config) ==> r == Failure(TypeError)
    ensures r.Success? ==> VersionComparable(config) && !VersionBelowTwo(config)
    // A `build` that already has `tools` leaves everything alone.
    ensures r.Success? && !r.value.applied ==> r.value.config == config
    ensures r.Success? && "build" !in config ==> r.value.applied
    ensures r.Success? && "build" in config && config["build"].Map? ==>
              (r.value.applied <==> "tools" !in config["build"].fields)
    // What an application writes.
    ensures r.Success? && r.value.applied ==> "python" !in config || config["python"].Map?
    ensures r.Success? && r.value.applied ==>
              && "build" in r.value.config
              && r.value.config["build"] ==
                   Map(map["os" := Str("ubuntu-20.04"),
                           "tools" := Map(map["python" := GetOr(PythonSection(config), "version", Str("3.7"))])])
    ensures r.Success? && r.value.applied ==>
              ("python" in r.value.config <==> PythonSection(config).Keys - {"version"} != {})
    ensures r.Success? && r.value.applied && "python" in r.value.config ==>
              r.value.config["python"] == Map(PythonSection(config) - {"version"})
    ensures r.Success? && r.value.applied ==>
              forall k :: k != "build" && k != "python" ==>
                (k in r.value.config <==> k in config) && (k in config ==> r.value.config[k] == config[k])
    // Whether it applies: `"tools" in config.get("build", {})` is false.
    ensures r.Success? ==> (r.value.applied <==> BuildTools(config) == Success(false))
    // The other two exceptions.
    ensures r == Failure(TypeError) <==>
              !VersionComparable(config) || (!VersionBelowTwo(config) && BuildTools(config).Failure?)
    ensures r == Failure(AttributeError) <==>
              && VersionComparable(config) && !VersionBelowTwo(config)
              && BuildTools(config) == Success(false)
              && "python" in config && !config["python"].Map?
  {
    var below :- LessThan(GetOr(config, "version", Int(1)), 2);
    if below then Failure(MigrationError)
    else
      var hasTools :- BuildTools(config);
      if hasTools then Success(Step(config, false))
      else
        var pythonVersion :- DictGet(GetOr(config, "python", Map(map[])), "version", Str("3.7"));
        var build := WithAptPackages(FreshBuild(pythonVersion));
        Success(Step(DropPythonVersion(config["build" := build]), true))
  }

  /** Running the migration on its own applied output changes nothing and reports that it did not apply. */
  lemma UseBuildToolsIdempotent(config: Document)
    requires UseBuildTools(config).Success? && UseBuildTools(config).value.applied
    ensures UseBuildTools(UseBuildTools(config).value.config) == Success(Step(UseBuildTools(config).value.config, false))
  {
  }

  /**
   * An application always changes the document, even under Python's `==`:
   * its `build` is a mapping with `tools` where the input's was absent, was
   * not a mapping, or lacked `tools`.
   */
  lemma AppliedChangesConfig(config: Document)
    requires UseBuildTools(config).Success? && UseBuildTools(config).value.applied
    ensures UseBuildTools(config).value.config != config
    ensures !PyEq(Map(UseBuildTools(config).value.config), Map(config))
  {
    var out := UseBuildTools(config).value.config;
    assert "tools" in out["build"].fields;
    if "build" in config {
      assert !PyEq(out["build"], config["build"]) by {
        if config["build"].Map? {
          assert "tools" !in config["build"].fields;
        }
      }
    }
  }

  /** A well-formed input can only fail the version guard, never with a type error. */
  lemma WellFormedFailsOnlyOnVersion(config: Document)
    requires WellFormedConfig(config)
    ensures UseBuildTools(config).Failure? <==> "version" !in config || config["version"].i < 2
    ensures UseBuildTools(config).Failure? ==> UseBuildTools(config).error == MigrationError
  {
  }

  /** The migration keeps a well-formed configuration well-formed. */
  lemma UseBuildToolsPreservesWellFormed(config: Document)
    requires WellFormedConfig(config)
    requires UseBuildTools(config).Success?
    ensures WellFormedConfig(UseBuildTools(config).value.config)
  {
    var out := UseBuildTools(config).value.config;
    if UseBuildTools(config).value.applied {
      var section := PythonSection(config);
      assert section.Keys <= {"version", "system_packages", "install"};
      assert "version" in section ==> section["version"].Str?;
      var tools := out["build"].fields["tools"];
      assert WellFormedTools(tools);
      assert WellFormedBuild(out["build"]);
      if "python" in out {
        assert WellFormedPython(out["python"]);
      }
      assert forall k :: k in out ==> k in {"version", "formats", "build", "python"};
    }
  }

  // The three parametrised cases of tests/test_migrators.py.

  lemma VersionOnlyVector()
    ensures UseBuildTools(map["version" := Int(2)])
         == Success(Step(map["version" := Int(2),
                             "build" := Map(map["os" := Str("ubuntu-20.04"), "tools" := Map(map["python" := Str("3.7")])])],
                         true))
  {
  }

  lemma PythonVersionVector()
    ensures UseBuildTools(map["version" := Int(2), "python" := Map(map["version" := Str("3.8")])])
         == Success(Step(map["version" := Int(2),
                             "build" := Map(map["os" := Str("ubuntu-20.04"), "tools" := Map(map["python" := Str("3.8")])])],
                         true))
  {
    var config := map["version" := Int(2), "python" := Map(map["version" := Str("3.8")])];
    var out := UseBuildTools(config).value.config;
    assert PythonSection(config).Keys - {"version"} == {};
    assert UseBuildTools(config).Success? && UseBuildTools(config).value.applied;
    assert out["version"] == Int(2);
    assert out["build"] == Map(map["os" := Str("ubuntu-20.04"), "tools" := Map(map["python" := Str("3.8")])]);
    assert out.Keys == {"version", "build"};
    var expected := map["version" := Int(2),
                        "build" := Map(map["os" := Str("ubuntu-20.04"), "tools" := Map(map["python" := Str("3.8")])])];
    assert forall k | k in out :: out[k] == expected[k];
    assert out == expected;
  }

  lemma PythonInstallVector()
    ensures UseBuildTools(map["version" := Int(2),
                              "python" := Map(map["version" := Str("3.8"),
                                                  "install" := List([Map(map["requirements" := Str("requirements.txt")])])])])
         == Success(Step(map["version" := Int(2),
                             "build" := Map(map["os" := Str("ubuntu-20.04"), "tools" := Map(map["python" := Str("3.8")])]),
                             "python" := Map(map["install" := List([Map(map["requirements" := Str("requirements.txt")])])])],
                         true))
  {
    var install := List([Map(map["requirements" := Str("requirements.txt")])]);
    var config := map["version" := Int(2), "python" := Map(map["version" := Str("3.8"), "install" := install])];
    var out := UseBuildTools(config).value.config;
    assert PythonSection(config) - {"version"} == map["install" := install];
    assert "install" in PythonSection(config).Keys - {"version"};
    assert UseBuildTools(config).Success? && UseBuildTools(config).value.applied;
    assert out["version"] == Int(2);
    assert out["build"] == Map(map["os" := Str("ubuntu-20.04"), "tools" := Map(map["python" := Str("3.8")])]);
    assert out["python"] == Map(map["install" := install]);
    assert out.Keys == {"version", "build", "python"};
    var expected := map["version" := Int(2),
                        "build" := Map(map["os" := Str("ubuntu-20.04"), "tools" := Map(map["python" := Str("3.8")])]),
                        "python" := Map(map["install" := install])];
    assert forall k | k in out :: out[k] == expected[k];
    assert out == expected;
  }
}
