/**
 * The shape of a Read the Docs v2 configuration as the typed dictionaries of
 * src/readthedocs_assistant/types.py declare it.  Every typed dictionary there
 * is declared with `total=False` except the two install entries, so a field
 * may always be missing; when present it must have the declared type.
 */
module Types {
  import opened Values

  const Formats: set<string> := {"htmlzip", "pdf", "epub"}
  const Tools: set<string> := {"python", "nodejs", "rust", "golang"}
  const OperatingSystems: set<string> := {"ubuntu-20.04"}
  const Images: set<string> := {"stable", "latest", "testing"}
  const InstallMethods: set<string> := {"pip", "setuptools"}

  /** A string drawn from a `Literal[...]` enumeration. */
  predicate IsLiteral(v: Value, allowed: set<string>) {
    v.Str? && v.s in allowed
  }

  /** A `list[str]`. */
  predicate IsStringList(v: Value) {
    v.List? && forall i :: 0 <= i < |v.items| ==> v.items[i].Str?
  }

  /** `dict[Tools, str]`. */
  predicate WellFormedTools(v: Value) {
    && v.Map?
    && v.fields.Keys <= Tools
    && forall k :: k in v.fields ==> v.fields[k].Str?
  }

  /** The `Build` typed dictionary. */
  predicate WellFormedBuild(v: Value) {
    && v.Map?
    && v.fields.Keys <= {"os", "tools", "image", "apt_packages"}
    && ("os" in v.fields ==> IsLiteral(v.fields["os"], OperatingSystems))
    && ("tools" in v.fields ==> WellFormedTools(v.fields["tools"]))
    && ("image" in v.fields ==> IsLiteral(v.fields["image"], Images))
    && ("apt_packages" in v.fields ==> IsStringList(v.fields["apt_packages"]))
  }

  /** `PythonRequirements | PythonInstallPath`: both are total, so every field is required. */
  predicate WellFormedInstall(v: Value) {
    && v.Map?
    && (|| (v.fields.Keys == {"requirements"} && v.fields["requirements"].Str?)
        || (&& v.fields.Keys == {"path", "method", "extra_requirements"}
            && v.fields["path"].Str?
            && IsLiteral(v.fields["method"], InstallMethods)
            && IsStringList(v.fields["extra_requirements"])))
  }

  /** The `Python` typed dictionary. */
  predicate WellFormedPython(v: Value) {
    && v.Map?
    && v.fields.Keys <= {"version", "system_packages", "install"}
    && ("version" in v.fields ==> v.fields["version"].Str?)
    && ("system_packages" in v.fields ==> v.fields["system_packages"].Bool?)
    && ("install" in v.fields ==>
          && v.fields["install"].List?
          && forall i :: 0 <= i < |v.fields["install"].items| ==> WellFormedInstall(v.fields["install"].items[i]))
  }

  /** The `RTDConfig` typed dictionary. */
  predicate WellFormedConfig(config: Document) {
    && config.Keys <= {"version", "formats", "build", "python"}
    && ("version" in config ==> config["version"].Int?)
    && ("formats" in config ==>
          && config["formats"].List?
          && forall i :: 0 <= i < |config["formats"].items| ==> IsLiteral(config["formats"].items[i], Formats))
    && ("build" in config ==> WellFormedBuild(config["build"]))
    && ("python" in config ==> WellFormedPython(config["python"]))
  }
}
